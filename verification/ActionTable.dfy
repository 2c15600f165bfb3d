/** What every reachable action table satisfies, and the two ways a row may change. */
module ActionTable {
  import opened Domain
  import opened Sequences
  import opened CaseState
  import opened NbaEngine
  import Catalog = RecoveryCatalog

  /** A row on its own. */
  predicate RowOk(a: Action) {
    && a.kind == KindOf(a.target)
    && a.key == KeyOf(a.target)
    && (a.requiresApproval ==> a.kind == ExecuteRecovery && a.status != Proposed)
    && (!a.requiresApproval ==>
      a.status != ActionStatus.PendingApproval && a.status != Approved && a.status != Rejected)
    && (a.target.Remedy? ==> (a.requiresApproval <==> !Catalog.EscapesApproval(a.target.code, a.target.cost)))
    && (IsInline(a.kind) ==> a.status == Succeeded)
    && a.status != Executing
  }

  /** An older row against a newer one: the older is settled, and rules the newer one out in part. */
  predicate PairOk(older: Action, newer: Action) {
    older.key != newer.key && Yields(older, newer)
  }

  predicate Yields(older: Action, newer: Action) {
    && !IsLive(older)
    && (older.kind == newer.kind == ExecuteRecovery ==> older.status != Succeeded)
    && (older.target.Remedy? && newer.target.Remedy? && older.target.code == newer.target.code ==>
          older.status == NeedsManualReview)
    && !(older.kind == newer.kind == NotifyCustomer)
    && !(older.kind == newer.kind == CloseCase)
    && !(older.kind == newer.kind == EscalateItsm)
  }

  /** A notice names an earlier succeeded recovery; a closure follows a succeeded notice. */
  ghost predicate CausesOk(actions: seq<Action>, i: nat)
    requires i < |actions|
  {
    && (actions[i].target.RecoveryNotice? ==>
          && actions[i].target.recovery < i
          && Done(ExecuteRecovery)(actions[actions[i].target.recovery]))
    && (actions[i].kind == CloseCase ==> exists j :: 0 <= j < i && Done(NotifyCustomer)(actions[j]))
  }

  ghost predicate TableOk(actions: seq<Action>) {
    && (forall i | 0 <= i < |actions| :: RowOk(actions[i]))
    && (forall i, j | 0 <= i < j < |actions| :: PairOk(actions[i], actions[j]))
    && (forall i | 0 <= i < |actions| :: CausesOk(actions, i))
  }

  /** Only the newest row can be live. */
  lemma LiveIsNewest(actions: seq<Action>, a: nat)
    requires TableOk(actions) && a < |actions| && IsLive(actions[a])
    ensures a == |actions| - 1
  {
    assert a < |actions| - 1 ==> PairOk(actions[a], actions[|actions| - 1]);
  }

  /** Moving the live row to any status its row permits. */
  lemma MoveKeeps(actions: seq<Action>, a: nat, status: ActionStatus)
    requires TableOk(actions) && a < |actions| && IsLive(actions[a])
    requires RowOk(actions[a].(status := status))
    ensures TableOk(actions[a := actions[a].(status := status)])
  {
    LiveIsNewest(actions, a);
    var after := actions[a := actions[a].(status := status)];
    forall i | 0 <= i < |after| ensures CausesOk(after, i) {
      assert CausesOk(actions, i);
      assert forall j | 0 <= j < i :: after[j] == actions[j];
    }
    forall i, j | 0 <= i < j < |after| ensures PairOk(after[i], after[j]) {
      assert PairOk(actions[i], actions[j]);
    }
  }

  /** Appending a row when nothing is live. */
  lemma AppendKeeps(actions: seq<Action>, x: Action)
    requires TableOk(actions) && RowOk(x)
    requires forall i | 0 <= i < |actions| :: PairOk(actions[i], x)
    requires CausesOk(actions + [x], |actions|)
    ensures TableOk(actions + [x])
  {
    var after := actions + [x];
    forall i | 0 <= i < |after| ensures CausesOk(after, i) {
      if i < |actions| {
        assert CausesOk(actions, i);
        assert forall j | 0 <= j < i :: after[j] == actions[j];
      }
    }
  }

  // ----- Approvals -----

  /** The approval status an action's status corresponds to. */
  function ApprovalFor(status: ActionStatus): ApprovalStatus {
    match status
    case PendingApproval => Pending
    case Rejected => Denied
    case _ => Granted
  }

  ghost predicate ApprovalOk(actions: seq<Action>, p: Approval) {
    && p.action < |actions|
    && actions[p.action].requiresApproval
    && actions[p.action].target.Remedy?
    && p.requiredRole == Catalog.SignOff(actions[p.action].target.code)
    && p.status == ApprovalFor(actions[p.action].status)
    && (p.status == Pending <==> p.decidedBy.None?)
  }

  ghost predicate HasApproval(approvals: seq<Approval>, a: nat) {
    exists p :: 0 <= p < |approvals| && approvals[p].action == a
  }

  /** Approvals mirror their actions, one for each action that needs one. */
  ghost predicate ApprovalsOk(actions: seq<Action>, approvals: seq<Approval>) {
    && (forall p | 0 <= p < |approvals| :: ApprovalOk(actions, approvals[p]))
    && (forall p, q | 0 <= p < q < |approvals| :: approvals[p].action != approvals[q].action)
    && (forall a | 0 <= a < |actions| && actions[a].requiresApproval :: HasApproval(approvals, a))
  }

  // ----- Tool executions -----

  function ByAction(a: nat): Execution -> bool {
    (x: Execution) => x.action == a
  }

  function TraceOf(executions: seq<Execution>, a: nat): seq<Execution> {
    Filter(executions, ByAction(a))
  }

  /** Attempts are numbered from 1, at most three, and only the last can have succeeded. */
  predicate Orderly(trace: seq<Execution>) {
    && |trace| <= 3
    && (forall k | 0 <= k < |trace| :: trace[k].attempt == k + 1)
    && (forall k | 0 <= k < |trace| - 1 :: trace[k].status != ToolSuccess)
  }

  predicate EndsInSuccess(trace: seq<Execution>) {
    trace != [] && trace[|trace| - 1].status == ToolSuccess
  }

  /** The execution trace an action's status stands for. */
  predicate TraceOk(a: Action, trace: seq<Execution>) {
    && Orderly(trace)
    && if IsInline(a.kind) then trace == []
       else if a.status == Succeeded || a.status == NeedsManualReview then EndsInSuccess(trace)
       else if a.status == Failed then |trace| == 3 && !EndsInSuccess(trace)
       else trace == []
  }

  ghost predicate ExecutionsOk(actions: seq<Action>, executions: seq<Execution>) {
    && (forall x | 0 <= x < |executions| :: executions[x].action < |actions|)
    && (forall a: nat | a < |actions| :: TraceOk(actions[a], TraceOf(executions, a)))
  }

  // ----- Impact assessments and evidence requests -----

  /** A hypothesis has its one analysis action exactly when it has its one assessment. */
  ghost predicate ImpactsOk(actions: seq<Action>, impacts: seq<Impact>) {
    && (forall i, j | 0 <= i < j < |impacts| :: impacts[i].hypothesis != impacts[j].hypothesis)
    && (forall h: nat :: First(impacts, ImpactFor(h)).Some? <==> First(actions, HasKey(KeyOf(ImpactOf(h)))).Some?)
  }

  /** Whatever evidence was asked for is what a MISSING flag misses. */
  ghost predicate RequestsOk(actions: seq<Action>, flags: seq<Flag>) {
    forall a | 0 <= a < |actions| && actions[a].target.MissingEvidence? ::
      actions[a].target.flag < |flags| && IsMissing(flags[actions[a].target.flag])
  }
}
