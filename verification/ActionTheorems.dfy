/** What holds of the actions, approvals and tool executions of every reachable case. */
module ActionTheorems {
  import opened Domain
  import opened Sequences
  import opened AuditReplay
  import opened CaseState
  import opened NbaEngine
  import opened Executor
  import opened ActionTable
  import opened ActionSafety
  import opened Tracing
  import opened TracedSteps
  import opened Runs
  import opened AppendOnly
  import Catalog = RecoveryCatalog

  // ----- One live action, distinct decisions, approvals in step -----

  lemma OneLiveActionDistinctKeys(caseId: nat, customer: nat, prior: seq<Delivery>, ops: seq<Op>, i: nat, j: nat)
    requires i < j < |Case(caseId, customer, prior, ops).actions|
    ensures var actions := Case(caseId, customer, prior, ops).actions;
            && actions[i].status in {Rejected, Succeeded, Failed, NeedsManualReview}
            && actions[i].key != actions[j].key
  {
    CaseHolds(caseId, customer, prior, ops);
    var actions := Case(caseId, customer, prior, ops).actions;
    assert PairOk(actions[i], actions[j]);
  }

  /** Pending approvals and actions pending approval are the same thing, one for one. */
  lemma ApprovalsInStep(caseId: nat, customer: nat, prior: seq<Delivery>, ops: seq<Op>)
    ensures var s := Case(caseId, customer, prior, ops);
            && (forall p | 0 <= p < |s.approvals| ::
                  && s.approvals[p].action < |s.actions|
                  && (s.approvals[p].status == Pending <==>
                    s.actions[s.approvals[p].action].status == ActionStatus.PendingApproval))
            && (forall a | 0 <= a < |s.actions| && s.actions[a].requiresApproval :: HasApproval(s.approvals, a))
            && (forall p, q | 0 <= p < q < |s.approvals| :: s.approvals[p].action != s.approvals[q].action)
            && (forall a | 0 <= a < |s.actions| && s.actions[a].status == ActionStatus.PendingApproval ::
              s.actions[a].requiresApproval)
  {
    CaseHolds(caseId, customer, prior, ops);
    var s := Case(caseId, customer, prior, ops);
    forall p | 0 <= p < |s.approvals|
      ensures s.approvals[p].action < |s.actions|
      ensures s.approvals[p].status == Pending <==>
              s.actions[s.approvals[p].action].status == ActionStatus.PendingApproval
    {
      assert ApprovalOk(s.actions, s.approvals[p]);
      assert RowOk(s.actions[s.approvals[p].action]);
    }
    assert forall a | 0 <= a < |s.actions| :: RowOk(s.actions[a]);
  }

  // ----- Approval before execution -----

  /** An event replay knows of was logged. */
  lemma {:induction false} HistoryWasLogged(log: seq<Entry>, caseId: nat, a: nat, event: ActionEvent)
    requires a in Replayed(log, caseId).actions && event in Replayed(log, caseId).actions[a]
    ensures exists m :: 0 <= m < |log| && log[m] == Entry(Some(caseId), ActionLogged(a, event))
  {
    var n := |log| - 1;
    if log[n] != Entry(Some(caseId), ActionLogged(a, event)) {
      HistoryWasLogged(log[..n], caseId, a, event);
      var m :| 0 <= m < n && log[..n][m] == Entry(Some(caseId), ActionLogged(a, event));
      assert log[m] == log[..n][m];
    }
  }

  predicate Decides(e: Entry, caseId: nat, p: nat, granted: bool) {
    e.owner == Some(caseId) && e.event.ApprovalDecided? && e.event.approval == p && e.event.granted == granted
  }

  lemma {:induction false} DecisionWasLogged(log: seq<Entry>, caseId: nat, p: nat)
    requires p in Replayed(log, caseId).approvals
    ensures exists k :: 0 <= k < |log| && Decides(log[k], caseId, p, Replayed(log, caseId).approvals[p].granted)
  {
    var n := |log| - 1;
    if log[n].owner == Some(caseId) && log[n].event.ApprovalDecided? && log[n].event.approval == p {
    } else {
      DecisionWasLogged(log[..n], caseId, p);
      var k :| 0 <= k < n && Decides(log[..n][k], caseId, p, Replayed(log[..n], caseId).approvals[p].granted);
      assert log[k] == log[..n][k];
    }
  }

  /** Granted by someone the approval permits, in the log before entry m. */
  ghost predicate GrantedInLogBefore(s: State, m: nat, a: nat)
    requires m <= |s.log|
  {
    exists p, k :: 0 <= p < |s.approvals| && 0 <= k < m
      && s.approvals[p].action == a && s.approvals[p].status == Granted
      && Decides(s.log[k], s.caseId, p, true)
      && (s.log[k].event.role == Admin || s.log[k].event.role == s.approvals[p].requiredRole)
  }

  /** The action started executing, and was granted before. */
  ghost predicate Sanctioned(s: State, a: nat) {
    exists m :: 0 <= m < |s.log|
      && s.log[m] == Entry(Some(s.caseId), ActionLogged(a, WasExecuting)) && GrantedInLogBefore(s, m, a)
  }

  /**
   No connector was ever called for a gated action without a granted approval by a permitted
   role already in the log when the action started executing.
   */
  lemma GatedExecutionsWereGranted(caseId: nat, customer: nat, prior: seq<Delivery>, ops: seq<Op>, x: nat)
    requires x < |Case(caseId, customer, prior, ops).executions|
    ensures var s := Case(caseId, customer, prior, ops);
            var a := s.executions[x].action;
            && a < |s.actions|
            && (s.actions[a].requiresApproval ==> Sanctioned(s, a))
  {
    CaseHolds(caseId, customer, prior, ops);
    GatedExecutionIsSanctioned(Case(caseId, customer, prior, ops), x);
  }

  lemma GatedExecutionIsSanctioned(s: State, x: nat)
    requires Safe(s) && Traced(s) && x < |s.executions|
    ensures s.executions[x].action < |s.actions|
    ensures s.actions[s.executions[x].action].requiresApproval ==> Sanctioned(s, s.executions[x].action)
  {
    var a := s.executions[x].action;
    if s.actions[a].requiresApproval {
      ExecutedHasTrace(s, x);
      ExecutedWasLogged(s, x);
      var m :| 0 <= m < |s.log| && s.log[m] == Entry(Some(s.caseId), ActionLogged(a, WasExecuting));
      assert EntryOk(s, m);
      StartFollowsGrant(s, m, a);
    }
  }

  lemma ExecutedHasTrace(s: State, x: nat)
    requires Safe(s) && x < |s.executions|
    ensures TraceOf(s.executions, s.executions[x].action) != []
    ensures s.actions[s.executions[x].action].status != Rejected
  {
    var a := s.executions[x].action;
    assert TraceOk(s.actions[a], TraceOf(s.executions, a));
    FilterNone(s.executions, ByAction(a));
    assert s.executions[x] in s.executions && ByAction(a)(s.executions[x]);
  }

  lemma ExecutedWasLogged(s: State, x: nat)
    requires Safe(s) && Traced(s) && x < |s.executions|
    ensures exists m ::
            0 <= m < |s.log| && s.log[m] == Entry(Some(s.caseId), ActionLogged(s.executions[x].action, WasExecuting))
  {
    var a := s.executions[x].action;
    assert TraceOk(s.actions[a], TraceOf(s.executions, a));
    ExecutedHasTrace(s, x);
    assert HistoryOf(s.actions[a])[1] == WasExecuting;
    assert LiveActions(s.actions)[a] == HistoryOf(s.actions[a]);
    HistoryWasLogged(s.log, s.caseId, a, WasExecuting);
  }

  lemma StartFollowsGrant(s: State, m: nat, a: nat)
    requires Safe(s) && Traced(s) && m < |s.log| && GrantedBefore(s, m, a)
    requires a < |s.actions| && s.actions[a].status != Rejected && TraceOf(s.executions, a) != []
    ensures GrantedInLogBefore(s, m, a)
  {
    hide Mirrored, Told, TableOk, Replayed, ImpactsOk;
    var before := Replayed(s.log[..m], s.caseId);
    var p :| 0 <= p < |s.approvals| && s.approvals[p].action == a && p in before.approvals
      && before.approvals[p].granted;
    DecisionWasLogged(s.log[..m], s.caseId, p);
    var k :| 0 <= k < m && Decides(s.log[..m][k], s.caseId, p, true);
    assert s.log[..m][k] == s.log[k];
    assert EntryOk(s, k);
    assert ApprovalOk(s.actions, s.approvals[p]);
    assert TraceOk(s.actions[a], TraceOf(s.executions, a));
  }

  /** Its own approval was granted, by the role its option calls for or an admin, before it started. */
  ghost predicate SignedOff(s: State, a: nat, code: OptionCode) {
    exists p, k, m :: 0 <= k < m < |s.log| && 0 <= p < |s.approvals| && s.approvals[p].action == a
      && s.log[m] == Entry(Some(s.caseId), ActionLogged(a, WasExecuting))
      && Decides(s.log[k], s.caseId, p, true)
      && MaySignOff(s.log[k].event.role, code)
  }

  /** Money going back to the customer is finance's to approve, everything else a supervisor's; an admin may do both. */
  predicate MaySignOff(role: Role, code: OptionCode) {
    || role == Admin
    || (role == FinanceApprover && code in {ReverseDuplicateCharge, FullRefund, IssueOutstandingRefund})
    || (role == Supervisor && code !in {ReverseDuplicateCharge, FullRefund, IssueOutstandingRefund})
  }

  /**
   Over every run, whoever decided an approval was an admin or had literally the role it requires,
   which is finance's for reversals and refunds and a supervisor's for all other remedies. An agent
   never decides.
   */
  lemma DecisionsWereAllowed(caseId: nat, customer: nat, prior: seq<Delivery>, ops: seq<Op>, k: nat)
    requires var s := Case(caseId, customer, prior, ops);
      k < |s.log| && s.log[k].owner == Some(caseId) && s.log[k].event.ApprovalDecided?
    ensures var s := Case(caseId, customer, prior, ops);
            var p, role := s.log[k].event.approval, s.log[k].event.role;
            && p < |s.approvals| && s.approvals[p].action < |s.actions|
            && (role == Admin || role == s.approvals[p].requiredRole)
            && s.actions[s.approvals[p].action].target.Remedy?
            && MaySignOff(role, s.actions[s.approvals[p].action].target.code)
  {
    hide Play, TableOk, ExecutionsOk, ImpactsOk, Mirrored, StageIsMax;
    CaseHolds(caseId, customer, prior, ops);
    PlayExtends(Opened(caseId, customer, prior), ops);
    var s := Case(caseId, customer, prior, ops);
    assert EntryOk(s, k);
    assert ApprovalOk(s.actions, s.approvals[s.log[k].event.approval]);
  }

  /**
   Every executed remedy that costs at least the threshold, or is the exceptional one, was signed
   off first; a rerouting is the only remedy that escapes, at any cost.
   */
  lemma CostlyRemediesWereSignedOff(caseId: nat, customer: nat, prior: seq<Delivery>, ops: seq<Op>, x: nat)
    requires x < |Case(caseId, customer, prior, ops).executions|
    ensures var s := Case(caseId, customer, prior, ops);
            var a := s.executions[x].action;
            && a < |s.actions|
            && (s.actions[a].target.Remedy? ==>
                  var code, cost := s.actions[a].target.code, s.actions[a].target.cost;
                  (cost >= 7_500 || code == ExceptionalRemedy) && code != RerouteOrReattempt ==>
                    SignedOff(s, a, code))
  {
    CaseHolds(caseId, customer, prior, ops);
    GatedExecutionIsSanctioned(Case(caseId, customer, prior, ops), x);
    SanctionIsSignOff(Case(caseId, customer, prior, ops), Case(caseId, customer, prior, ops).executions[x].action);
  }

  lemma SanctionIsSignOff(s: State, a: nat)
    requires Safe(s) && a < |s.actions|
    ensures s.actions[a].requiresApproval && Sanctioned(s, a) ==>
              s.actions[a].target.Remedy? && SignedOff(s, a, s.actions[a].target.code)
    ensures s.actions[a].target.Remedy? ==>
              (s.actions[a].requiresApproval <==>
                !Catalog.EscapesApproval(s.actions[a].target.code, s.actions[a].target.cost))
  {
    hide PairOk, CausesOk, ExecutionsOk, ImpactsOk, RequestsOk;
    assert RowOk(s.actions[a]);
    if s.actions[a].requiresApproval && Sanctioned(s, a) {
      var m :| 0 <= m < |s.log| && s.log[m] == Entry(Some(s.caseId), ActionLogged(a, WasExecuting))
        && GrantedInLogBefore(s, m, a);
      var p, k :| 0 <= p < |s.approvals| && 0 <= k < m
        && s.approvals[p].action == a && s.approvals[p].status == Granted
        && Decides(s.log[k], s.caseId, p, true)
        && (s.log[k].event.role == Admin || s.log[k].event.role == s.approvals[p].requiredRole);
      assert ApprovalOk(s.actions, s.approvals[p]);
    }
  }

  // ----- Recovery uniqueness -----

  /** A recovery not parked in manual review. */
  predicate Regular(a: Action) {
    a.kind == ExecuteRecovery && a.target.Remedy? && a.status != NeedsManualReview
  }

  function Codes(actions: seq<Action>): seq<OptionCode> {
    if actions == [] then []
    else
      var last := actions[|actions| - 1];
      Codes(actions[..|actions| - 1]) + if Regular(last) then [last.target.code] else []
  }

  lemma {:induction false} CodesCounted(actions: seq<Action>)
    ensures |Codes(actions)| == Count(actions, Regular)
  {
    if actions != [] {
      CodesCounted(actions[..|actions| - 1]);
    }
  }

  lemma {:induction false} CodesAvoid(actions: seq<Action>, code: OptionCode)
    requires forall i | 0 <= i < |actions| && Regular(actions[i]) :: actions[i].target.code != code
    ensures code !in Codes(actions)
  {
    if actions != [] {
      CodesAvoid(actions[..|actions| - 1], code);
    }
  }

  lemma {:induction false} CodesDistinct(actions: seq<Action>)
    requires TableOk(actions)
    ensures NoDuplicates(Codes(actions))
  {
    if actions != [] {
      var n := |actions| - 1;
      PrefixOk(actions, n);
      CodesDistinct(actions[..n]);
      if Regular(actions[n]) {
        forall i | 0 <= i < n && Regular(actions[i]) ensures actions[i].target.code != actions[n].target.code {
          assert PairOk(actions[i], actions[n]);
        }
        CodesAvoid(actions[..n], actions[n].target.code);
      }
    }
  }

  lemma PrefixOk(actions: seq<Action>, n: nat)
    requires TableOk(actions) && n <= |actions|
    ensures TableOk(actions[..n])
  {
    forall i | 0 <= i < n ensures CausesOk(actions[..n], i) {
      assert CausesOk(actions, i);
    }
  }

  lemma ElevenCodes()
    ensures |Catalog.AllCodes()| == 11
  {
    var all := {ReverseDuplicateCharge, ExpeditedReshipment, FullRefund, ReplacementOrder, GoodwillCredit,
                IssueOutstandingRefund, PriceAdjustment, RerouteOrReattempt, ManualReconciliationCredit,
                ExceptionalRemedy, ApologyStatusUpdate};
    assert |all| == 11;
    forall code: OptionCode ensures code in all && Catalog.IsCode(code) {
      match code
      case ReverseDuplicateCharge => case ExpeditedReshipment => case FullRefund => case ReplacementOrder =>
      case GoodwillCredit => case IssueOutstandingRefund => case PriceAdjustment => case RerouteOrReattempt =>
      case ManualReconciliationCredit => case ExceptionalRemedy => case ApologyStatusUpdate =>
    }
    assert Catalog.AllCodes() == all;
  }

  /** Two live or succeeded recoveries never coexist, under any number of hypotheses. */
  lemma OneRecovery(caseId: nat, customer: nat, prior: seq<Delivery>, ops: seq<Op>, i: nat, j: nat)
    requires i < j < |Case(caseId, customer, prior, ops).actions|
    ensures var actions := Case(caseId, customer, prior, ops).actions;
            actions[i].kind == ExecuteRecovery && actions[j].kind == ExecuteRecovery ==>
              actions[i].status in {Rejected, Failed, NeedsManualReview}
  {
    CaseHolds(caseId, customer, prior, ops);
    var actions := Case(caseId, customer, prior, ops).actions;
    assert PairOk(actions[i], actions[j]);
  }

  /** An option is used again only after manual review parked it, and then for another hypothesis. */
  lemma OptionReusedOnlyAfterReview(caseId: nat, customer: nat, prior: seq<Delivery>, ops: seq<Op>, i: nat, j: nat)
    requires i < j < |Case(caseId, customer, prior, ops).actions|
    ensures var actions := Case(caseId, customer, prior, ops).actions;
            actions[i].target.Remedy? && actions[j].target.Remedy?
              && actions[i].target.code == actions[j].target.code ==>
              actions[i].status == NeedsManualReview && actions[i].target.hypothesis != actions[j].target.hypothesis
  {
    hide Case;
    CaseHolds(caseId, customer, prior, ops);
    var actions := Case(caseId, customer, prior, ops).actions;
    assert PairOk(actions[i], actions[j]) && RowOk(actions[i]) && RowOk(actions[j]);
  }

  /** So recoveries outside manual review number at most eleven over the whole life of a case. */
  lemma AtMostElevenRecoveries(caseId: nat, customer: nat, prior: seq<Delivery>, ops: seq<Op>)
    ensures Count(Case(caseId, customer, prior, ops).actions, Regular) <= 11
    ensures forall i | 0 <= i < |Case(caseId, customer, prior, ops).actions| ::
              var a := Case(caseId, customer, prior, ops).actions[i];
              Regular(a) <==> a.kind == ExecuteRecovery && a.status != NeedsManualReview
  {
    hide Case, Codes;
    CaseHolds(caseId, customer, prior, ops);
    var actions := Case(caseId, customer, prior, ops).actions;
    forall i | 0 <= i < |actions|
      ensures Regular(actions[i]) <==> actions[i].kind == ExecuteRecovery && actions[i].status != NeedsManualReview {
      assert RowOk(actions[i]);
    }
    CodesDistinct(actions);
    CodesCounted(actions);
    DistinctLength(Codes(actions));
    ElevenCodes();
    FitsIn(Elements(Codes(actions)), Catalog.AllCodes());
  }

  lemma FitsIn(a: set<OptionCode>, b: set<OptionCode>)
    requires b == Catalog.AllCodes()
    ensures |a| <= |b|
  {
    forall code | code in a ensures code in b {
      assert Catalog.IsCode(code);
    }
    Subset(a, b);
  }

  lemma {:induction false} Subset(a: set<OptionCode>, b: set<OptionCode>)
    requires a <= b
    ensures |a| <= |b|
  {
    if a != {} {
      var x :| x in a;
      Subset(a - {x}, b - {x});
    }
  }

  // ----- Causal order of closure -----

  /** Closing rests on a succeeded notice, which names an earlier recovery that succeeded. */
  lemma ClosureFollowsNoticeFollowsRecovery(caseId: nat, customer: nat, prior: seq<Delivery>, ops: seq<Op>, c: nat)
    requires c < |Case(caseId, customer, prior, ops).actions|
    ensures var actions := Case(caseId, customer, prior, ops).actions;
            && (actions[c].kind == NotifyCustomer ==>
                  actions[c].target.RecoveryNotice? && actions[c].target.recovery < c
                  && Done(ExecuteRecovery)(actions[actions[c].target.recovery]))
            && (actions[c].kind == CloseCase ==>
                  exists n :: 0 <= n < c && Done(NotifyCustomer)(actions[n])
                    && actions[n].target.RecoveryNotice? && actions[n].target.recovery < n
                    && Done(ExecuteRecovery)(actions[actions[n].target.recovery]))
  {
    hide Case, PairOk, ApprovalsOk, ExecutionsOk, ImpactsOk, Traced;
    CaseHolds(caseId, customer, prior, ops);
    var actions := Case(caseId, customer, prior, ops).actions;
    assert CausesOk(actions, c) && RowOk(actions[c]);
    if actions[c].kind == CloseCase {
      var n :| 0 <= n < c && Done(NotifyCustomer)(actions[n]);
      assert CausesOk(actions, n) && RowOk(actions[n]);
    }
  }

  lemma OneNoticeOneClosure(caseId: nat, customer: nat, prior: seq<Delivery>, ops: seq<Op>, i: nat, j: nat)
    requires i < j < |Case(caseId, customer, prior, ops).actions|
    ensures var actions := Case(caseId, customer, prior, ops).actions;
            && !(actions[i].kind == actions[j].kind == NotifyCustomer)
            && !(actions[i].kind == actions[j].kind == CloseCase)
            && !(actions[i].kind == actions[j].kind == EscalateItsm)
  {
    CaseHolds(caseId, customer, prior, ops);
    var actions := Case(caseId, customer, prior, ops).actions;
    assert PairOk(actions[i], actions[j]);
  }

  /** Where closing dereferences the succeeded recovery, there is one. */
  lemma ClosingHasItsRecovery(caseId: nat, customer: nat, prior: seq<Delivery>, ops: seq<Op>, scan: nat)
    ensures var s := Case(caseId, customer, prior, ops);
            Choose(s, scan).Close? ==>
              First(s.actions, Done(ExecuteRecovery)).Some?
                && First(s.actions, HasKey(KeyOf(Closure(Choose(s, scan).hypothesis)))).None?
  {
    CaseHolds(caseId, customer, prior, ops);
    RecoveredBeforeClosing(Case(caseId, customer, prior, ops), scan);
  }

  lemma RecoveredBeforeClosing(s: State, scan: nat)
    requires Safe(s)
    ensures Choose(s, scan).Close? ==>
              First(s.actions, Done(ExecuteRecovery)).Some?
                && First(s.actions, HasKey(KeyOf(Closure(Choose(s, scan).hypothesis)))).None?
  {
    var choice := Choose(s, scan);
    ChoiceWarranted(s, scan);
    if choice.Close? {
      FreshKeys(s, choice);
      NoticeHasRecovery(s.actions);
    }
  }

  lemma NoticeHasRecovery(actions: seq<Action>)
    requires TableOk(actions) && First(actions, Done(NotifyCustomer)).Some?
    ensures First(actions, Done(ExecuteRecovery)).Some?
  {
    var n := First(actions, Done(NotifyCustomer)).value;
    assert CausesOk(actions, n) && RowOk(actions[n]);
  }

  // ----- Execution traces -----

  /** What an action's attempts and its audited history look like, whatever its connector did. */
  lemma ExecutionTraceLaw(caseId: nat, customer: nat, prior: seq<Delivery>, ops: seq<Op>, a: nat)
    requires a < |Case(caseId, customer, prior, ops).actions|
    ensures var s := Case(caseId, customer, prior, ops);
            var row, trace := s.actions[a], TraceOf(s.executions, a);
            && Orderly(trace)
            && (trace != [] ==> (row.status == Succeeded || row.status == NeedsManualReview <==> EndsInSuccess(trace)))
            && (row.status == Failed <==> |trace| == 3 && !EndsInSuccess(trace))
            && (row.status == Succeeded || row.status == NeedsManualReview ==>
              EndsInSuccess(trace) || (IsInline(row.kind) && trace == []))
            && Count(trace, SuccessOf(a)) <= 1
  {
    CaseHolds(caseId, customer, prior, ops);
    var s := Case(caseId, customer, prior, ops);
    assert TraceOk(s.actions[a], TraceOf(s.executions, a)) && RowOk(s.actions[a]);
    OneSuccess(TraceOf(s.executions, a), a);
  }

  lemma OneSuccess(trace: seq<Execution>, a: nat)
    requires Orderly(trace)
    ensures Count(trace, SuccessOf(a)) <= 1
  {
    if trace != [] {
      var n := |trace| - 1;
      CountZero(trace[..n], SuccessOf(a));
    }
  }

  lemma {:induction false} HistoriesOnlyGrow(log: seq<Entry>, caseId: nat, n: nat, a: nat)
    requires n <= |log| && a in Replayed(log[..n], caseId).actions
    ensures a in Replayed(log, caseId).actions
    ensures Replayed(log[..n], caseId).actions[a] <= Replayed(log, caseId).actions[a]
  {
    if n < |log| {
      var m := |log| - 1;
      assert log[..m][..n] == log[..n];
      HistoriesOnlyGrow(log[..m], caseId, n, a);
    } else {
      assert log[..n] == log;
    }
  }

  /** At any point of the log, an action's audited history is a prefix of proposed, executing, one end. */
  lemma AuditedHistoryIsPrefix(caseId: nat, customer: nat, prior: seq<Delivery>, ops: seq<Op>, n: nat, a: nat)
    requires n <= |Case(caseId, customer, prior, ops).log|
    requires a in Replayed(Case(caseId, customer, prior, ops).log[..n], caseId).actions
    ensures var s := Case(caseId, customer, prior, ops);
            && a < |s.actions|
            && Replayed(s.log[..n], caseId).actions[a] <= FullHistory(s.actions[a])
  {
    CaseHolds(caseId, customer, prior, ops);
    PlayExtends(Opened(caseId, customer, prior), ops);
    var s := Case(caseId, customer, prior, ops);
    HistoriesOnlyGrow(s.log, caseId, n, a);
    HistoryIsPrefix(s.actions[a]);
  }

  /** Proposed, executing, and one end. */
  function FullHistory(a: Action): seq<ActionEvent> {
    [WasProposed(a.kind, a.requiresApproval), WasExecuting, HasFinished(a.status)]
  }

  lemma HistoryIsPrefix(a: Action)
    ensures HistoryOf(a) <= FullHistory(a)
  {}
}
