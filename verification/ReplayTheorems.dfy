/**
 What the audit log is good for: how much of the live tables replay tells, over every run and at
 every time, action statuses included.
 */
module ReplayTheorems {
  import opened Domain
  import opened Sequences
  import opened AuditReplay
  import opened CaseState
  import opened ActionTable
  import opened ActionSafety
  import opened Tracing
  import opened Runs
  import opened AppendOnly

  // ----- The status a replayed history names -----

  /** How replay has the approval of an action decided, if it was. */
  function DecisionIn(r: Snapshot, approvals: seq<Approval>, a: nat): Option<bool> {
    var p := First(approvals, Concerning(a));
    if p.Some? && p.value in r.approvals then Some(r.approvals[p.value].granted) else None
  }

  /** The status an action's last event names, together with the decision on its approval. */
  function Named(history: seq<ActionEvent>, decision: Option<bool>): Option<ActionStatus> {
    if history == [] then None
    else match history[|history| - 1]
      case WasProposed(_, gated) =>
        Some(if !gated then Proposed
             else if decision.None? then ActionStatus.PendingApproval
             else if decision.value then Approved else Rejected)
      case WasExecuting => Some(Executing)
      case HasFinished(status) => Some(status)
  }

  /** The same, for a reader who knows that analyses and closures are carried out as they are proposed. */
  function Deduced(history: seq<ActionEvent>, decision: Option<bool>): Option<ActionStatus> {
    if history != [] && history[|history| - 1].WasProposed? && IsInline(history[|history| - 1].kind)
    then Some(Succeeded)
    else Named(history, decision)
  }

  predicate Names(r: Snapshot, p: Picture, a: nat)
    requires a < |p.actions|
  {
    a in r.actions && Named(r.actions[a], DecisionIn(r, p.approvals, a)) == Some(p.actions[a].status)
  }

  predicate Determines(r: Snapshot, p: Picture, a: nat)
    requires a < |p.actions|
  {
    a in r.actions && Deduced(r.actions[a], DecisionIn(r, p.approvals, a)) == Some(p.actions[a].status)
  }

  /** Stage, hypotheses and decided approvals are the live ones, and exactly the live actions are known. */
  ghost predicate SameButStatuses(r: Snapshot, p: Picture) {
    && r.stage == p.stage
    && r.hypotheses == LiveHypotheses(p.hypotheses)
    && r.approvals == LiveApprovals(p.approvals)
    && (forall a: nat :: a in r.actions <==> a < |p.actions|)
  }

  /** Replay tells the live tables, every action's status included. */
  ghost predicate Exact(r: Snapshot, p: Picture) {
    SameButStatuses(r, p) && forall a: nat | a < |p.actions| :: Names(r, p, a)
  }

  /** An action carried out inline: its success is never logged as an action event. */
  predicate SettledInline(a: Action) {
    IsInline(a.kind) && a.status == Succeeded
  }

  lemma SameDecision(p: Picture, a: nat)
    ensures DecisionIn(Shown(p), p.approvals, a) == DecisionOn(p.approvals, a)
  {
    hide First, LiveActions, LiveHypotheses;
  }

  /** A log that is up to date names every status but those of actions settled inline. */
  lemma UpToDateNames(p: Picture, a: nat)
    requires Coherent(p.actions, p.approvals) && a < |p.actions|
    ensures Names(Shown(p), p, a) <==> !SettledInline(p.actions[a])
    ensures (IsInline(p.actions[a].kind) ==> p.actions[a].status == Succeeded) ==> Determines(Shown(p), p, a)
  {
    hide DecisionOn, DecisionIn;
    SameDecision(p, a);
    assert InStep(p.actions[a], DecisionOn(p.approvals, a));
    assert Shown(p).actions[a] == HistoryOf(p.actions[a]);
  }

  lemma UpToDate(p: Picture)
    ensures SameButStatuses(Shown(p), p)
  {}

  // ----- The entry written ahead -----

  /** The action whose row is ahead of the log at an entry written ahead. */
  function AheadOf(log: seq<Entry>, caseId: nat, k: nat): Option<nat>
    requires k < |log|
  {
    if WrittenAhead(log[k], caseId) && k + 1 < |log| && Finishes(log[k + 1], caseId) then Some(log[k + 1].event.action)
      else None
  }

  lemma FinishIsVisible(log: seq<Entry>, caseId: nat, k: nat)
    requires k + 1 < |log| && Finishes(log[k + 1], caseId)
    ensures var before, after, e := Replayed(log[..k + 1], caseId), Replayed(log[..k + 2], caseId), log[k + 1].event;
            && before != after
            && after == before.(actions := before.actions[e.action :=
                 (if e.action in before.actions then before.actions[e.action] else []) + [e.event]])
  {
    assert log[..k + 2] == log[..k + 1] + [log[k + 1]];
    ReplayedSnoc(log[..k + 1], log[k + 1], caseId);
    var a := log[k + 1].event.action;
    var before, after := Replayed(log[..k + 1], caseId), Replayed(log[..k + 2], caseId);
    assert |after.actions[a]| == 1 + if a in before.actions then |before.actions[a]| else 0;
  }

  /** One event short, an action's history names that it is still executing. */
  lemma OneEventShort(r: Snapshot, p: Picture, a: nat, event: ActionEvent)
    requires event.HasFinished?
    requires Shown(p) == r.(actions := r.actions[a := (if a in r.actions then r.actions[a] else []) + [event]])
    ensures a < |p.actions| && SameButStatuses(r, p) && !Names(r, p, a) && !SettledInline(p.actions[a])
    ensures forall b: nat | b < |p.actions| && b != a :: Names(r, p, b) <==> Names(Shown(p), p, b)
  {
    hide DecisionIn;
    var told := Shown(p);
    assert a in told.actions;
    assert told.actions[a] == HistoryOf(p.actions[a]);
    var history := if a in r.actions then r.actions[a] else [];
    assert history + [event] == HistoryOf(p.actions[a]);
    FinishedHistory(p.actions[a], history, event);
    assert Named(history, DecisionIn(r, p.approvals, a)) == Some(Executing);
    assert a in r.actions;
    forall b: nat ensures b in r.actions <==> b < |p.actions| {
      assert b in r.actions <==> b in told.actions;
    }
    UpToDate(p);
    forall b: nat ensures DecisionIn(r, p.approvals, b) == DecisionIn(told, p.approvals, b) {
      SameApprovalsSameDecision(r, told, p.approvals, b);
    }
  }

  lemma FinishedHistory(a: Action, history: seq<ActionEvent>, event: ActionEvent)
    requires event.HasFinished? && history + [event] == HistoryOf(a)
    ensures |history| == 2 && history[1] == WasExecuting && a.status != Executing && !SettledInline(a)
  {
    var told := HistoryOf(a);
    assert told[|told| - 1] == event && history == told[..|told| - 1];
  }

  lemma SameApprovalsSameDecision(r: Snapshot, t: Snapshot, approvals: seq<Approval>, a: nat)
    requires r.approvals == t.approvals
    ensures DecisionIn(r, approvals, a) == DecisionIn(t, approvals, a)
  {}

  // ----- Replay refines the live state -----

  /** What replay tells of the tables as they were at one write. */
  ghost predicate ToldAt(s: State, k: nat)
    requires k < |s.log| == |s.snapshots|
  {
    var r, p := Replayed(s.log[..k + 1], s.caseId), s.snapshots[k];
    && SameButStatuses(r, p)
    && (forall a: nat | a < |p.actions| ::
          Names(r, p, a) <==> !SettledInline(p.actions[a]) && AheadOf(s.log, s.caseId, k) != Some(a))
    && (Exact(r, p) <==> !WrittenAhead(s.log[k], s.caseId) && forall a | a in p.actions :: !SettledInline(a))
  }

  lemma TracedIsTold(s: State, k: nat)
    requires Traced(s) && k < |s.log|
    ensures ToldAt(s, k)
  {
    hide EntryOk, StageIsMax, Coherent, Shown, SameButStatuses, Names, Replayed;
    assert Mirrored(s.log, s.snapshots, s.caseId, k);
    var r, p := Replayed(s.log[..k + 1], s.caseId), s.snapshots[k];
    forall a: nat | a < |p.actions| ensures Names(Shown(p), p, a) <==> !SettledInline(p.actions[a]) {
      UpToDateNames(p, a);
    }
    UpToDate(p);
    if WrittenAhead(s.log[k], s.caseId) {
      FinishIsVisible(s.log, s.caseId, k);
      FinishedNotSettledInline(s, k, r, p);
    }
    assert forall a: nat | a < |p.actions| :: p.actions[a] in p.actions;
  }

  lemma FinishedNotSettledInline(s: State, k: nat, r: Snapshot, p: Picture)
    requires k + 1 < |s.log| && Finishes(s.log[k + 1], s.caseId)
    requires Shown(p) == r.(actions := r.actions[s.log[k + 1].event.action :=
               (if s.log[k + 1].event.action in r.actions then r.actions[s.log[k + 1].event.action] else [])
                 + [s.log[k + 1].event.event]])
    ensures var a := s.log[k + 1].event.action;
            && a < |p.actions| && SameButStatuses(r, p) && !Names(r, p, a)
            && forall b: nat | b < |p.actions| && b != a :: Names(r, p, b) <==> Names(Shown(p), p, b)
  {
    OneEventShort(r, p, s.log[k + 1].event.action, s.log[k + 1].event.event);
  }

  /**
   Folding any prefix of the log tells the live stage, hypotheses, decided approvals and known
   actions as they were right after its last write. It names an action's status as well, unless
   that action was carried out inline, which is never logged, or the write is the stage entry of
   an execution whose row is already final and whose last event is the next entry. It is exact
   in every status if and only if neither is the case.
   */
  lemma ReplayIsLiveStateAtEveryWrite(caseId: nat, customer: nat, prior: seq<Delivery>, ops: seq<Op>, k: nat)
    requires k < |Case(caseId, customer, prior, ops).log|
    ensures var s := Case(caseId, customer, prior, ops);
            |s.snapshots| == |s.log| && s.caseId == caseId && ToldAt(s, k)
  {
    hide Play, ToldAt, Traced;
    CaseHolds(caseId, customer, prior, ops);
    PlayExtends(Opened(caseId, customer, prior), ops);
    TracedHasSnapshots(Case(caseId, customer, prior, ops));
    TracedIsTold(Case(caseId, customer, prior, ops), k);
  }

  lemma TracedHasSnapshots(s: State)
    requires Traced(s)
    ensures |s.snapshots| == |s.log|
  {}

  /** What replay tells of the tables between operations. */
  ghost predicate ToldNow(r: Snapshot, s: State) {
    var p := PictureOf(s);
    && SameButStatuses(r, p)
    && (forall a: nat | a < |p.actions| :: Names(r, p, a) <==> p.actions[a].kind !in {RunAnalysis, CloseCase})
    && (forall a: nat | a < |p.actions| :: Determines(r, p, a))
  }

  /**
   Between operations the log tells everything but this: the status of an action is named by its
   last event exactly when the action is not one carried out inline. Kind, history and decision
   together always determine it.
   */
  lemma ReplayIsLiveStateNow(caseId: nat, customer: nat, prior: seq<Delivery>, ops: seq<Op>)
    ensures var s := Case(caseId, customer, prior, ops); ToldNow(Replayed(s.log, caseId), s)
  {
    hide Play, ToldNow, Traced, Safe;
    CaseHolds(caseId, customer, prior, ops);
    PlayExtends(Opened(caseId, customer, prior), ops);
    RestIsTold(Case(caseId, customer, prior, ops));
  }

  lemma RestIsTold(s: State)
    requires Safe(s) && Traced(s)
    ensures ToldNow(Replayed(s.log, s.caseId), s)
  {
    hide Mirrored, EntryOk, StageIsMax, Coherent, Shown, Names, Determines, PairOk, CausesOk, ApprovalsOk, ExecutionsOk,
      ImpactsOk;
    var p := PictureOf(s);
    forall a: nat | a < |p.actions|
      ensures Names(Shown(p), p, a) <==> !IsInline(p.actions[a].kind)
      ensures Determines(Shown(p), p, a)
    {
      assert RowOk(s.actions[a]);
      UpToDateNames(p, a);
    }
    UpToDate(p);
  }

  /** What replay answers for a point in time, if the case's rows were stamped in the order of writing. */
  lemma ReplayAsOf(
    caseId: nat, customer: nat, prior: seq<Delivery>, ops: seq<Op>, stamps: seq<Stamp>, asOf: Option<int>,
      ids: seq<nat>)
    requires |stamps| == |Case(caseId, customer, prior, ops).log|
    requires TicksFor(Case(caseId, customer, prior, ops).log, stamps, caseId, None)
    requires AnswersTrail(Case(caseId, customer, prior, ops).log, stamps, caseId, asOf, ids)
    ensures var s := Case(caseId, customer, prior, ops);
            var n := WrittenBy(s.log, stamps, caseId, asOf);
            var r := FoldAll(Events(s.log, ids));
            && (n == 0 ==> r == BLANK)
            && (n > 0 ==> |s.snapshots| == |s.log| && ToldAt(s, n - 1) && r == Replayed(s.log[..n], s.caseId))
  {
    hide Play, ToldAt, TicksFor, WrittenBy, Events, FoldAll;
    var s := Case(caseId, customer, prior, ops);
    var n := WrittenBy(s.log, stamps, caseId, asOf);
    TrailFoldsPrefix(s.log, stamps, caseId, asOf, ids);
    if n > 0 {
      ReplayIsLiveStateAtEveryWrite(caseId, customer, prior, ops, n - 1);
    } else {
      assert s.log[..0] == [];
    }
  }

  /**
   Folding the part of the final log that was written by the end of some earlier operation tells
   the tables of that moment: nothing written later disturbs the past.
   */
  lemma ReplayRecoversEveryPastState(caseId: nat, customer: nat, prior: seq<Delivery>, past: seq<Op>, future: seq<Op>)
    ensures var before, now := Case(caseId, customer, prior, past), Case(caseId, customer, prior, past + future);
            before.log <= now.log && ToldNow(Replayed(now.log[..|before.log|], caseId), before)
  {
    hide Play, ToldNow;
    var before, now := Case(caseId, customer, prior, past), Case(caseId, customer, prior, past + future);
    PlayConcat(Opened(caseId, customer, prior), past, future);
    PlayExtends(before, future);
    ReplayIsLiveStateNow(caseId, customer, prior, past);
    assert now.log[..|before.log|] == before.log;
  }
}
