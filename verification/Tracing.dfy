/**
 The audit log against the live tables: what the rows have to tell is replayed at every write but one,
 executions follow approvals, and the stage is the maximum of what was asked for.
 */
module Tracing {
  import opened Domain
  import opened Sequences
  import opened AuditReplay
  import opened CaseState

  // ----- Stage closed form -----

  /** The stages asked for since the last reset. */
  function SinceReset(requests: seq<StageRequest>): seq<Stage> {
    if requests == [] then []
    else match requests[|requests| - 1]
      case Ask(stage) => SinceReset(requests[..|requests| - 1]) + [stage]
      case Reset => []
  }

  function Base(requests: seq<StageRequest>): Stage {
    if Reset in requests then FailureLocated else IssueReported
  }

  /** The stage is the furthest of the base and everything asked for since the last reset. */
  ghost predicate StageIsMax(requests: seq<StageRequest>, stage: Stage) {
    && Index(Base(requests)) <= Index(stage)
    && (stage == Base(requests) || stage in SinceReset(requests))
    && forall asked | asked in SinceReset(requests) :: Index(asked) <= Index(stage)
  }

  lemma RequestSnoc(requests: seq<StageRequest>, r: StageRequest)
    ensures SinceReset(requests + [r]) == if r.Ask? then SinceReset(requests) + [r.stage] else []
    ensures Base(requests + [r]) == if r.Reset? then FailureLocated else Base(requests)
  {
    assert (requests + [r])[..|requests|] == requests;
    assert Reset in requests + [r] <==> Reset in requests || r == Reset;
  }

  lemma AskKeepsMax(requests: seq<StageRequest>, stage: Stage, asked: Stage)
    requires StageIsMax(requests, stage)
    ensures StageIsMax(requests + [Ask(asked)], if Index(asked) <= Index(stage) then stage else asked)
  {
    RequestSnoc(requests, Ask(asked));
  }

  lemma ResetKeepsMax(requests: seq<StageRequest>)
    ensures StageIsMax(requests + [Reset], FailureLocated)
  {
    RequestSnoc(requests, Reset);
  }

  // ----- Replay against the live tables -----

  /** The one sort of entry written while an action's row is ahead of its log. */
  predicate WrittenAhead(e: Entry, caseId: nat) {
    && e.owner == Some(caseId)
    && e.event.StageAdvanced?
    && (e.event.to == ActionsCoordinated || e.event.to == CustomerUpdated)
  }

  predicate Finishes(e: Entry, caseId: nat) {
    e.owner == Some(caseId) && e.event.ActionLogged? && e.event.event.HasFinished?
  }

  /**
   What the tables had to tell right after the k-th write is the replay of the log up to it; for an
   entry written ahead, it is the replay up to the next entry, which logs an action's end.
   */
  ghost predicate Mirrored(log: seq<Entry>, snapshots: seq<Picture>, caseId: nat, k: nat)
    requires k < |log| == |snapshots|
  {
    if WrittenAhead(log[k], caseId) then
      k + 1 < |log| && Finishes(log[k + 1], caseId) && Shown(snapshots[k]) == Replayed(log[..k + 2], caseId)
    else
      Shown(snapshots[k]) == Replayed(log[..k + 1], caseId)
  }

  // ----- Statuses against approvals -----

  function Concerning(a: nat): Approval -> bool {
    (p: Approval) => p.action == a
  }

  /** How the approval of an action was decided, if it was. */
  function DecisionOn(approvals: seq<Approval>, a: nat): Option<bool> {
    var p := First(approvals, Concerning(a));
    if p.Some? && approvals[p.value].status != Pending && approvals[p.value].decidedBy.Some?
    then Some(approvals[p.value].status == Granted) else None
  }

  /** A status before execution goes with being gated and with the decision made so far. */
  predicate InStep(a: Action, decision: Option<bool>) {
    match a.status
    case Proposed => !a.requiresApproval
    case PendingApproval => a.requiresApproval && decision == None
    case Approved => a.requiresApproval && decision == Some(true)
    case Rejected => a.requiresApproval && decision == Some(false)
    case _ => true
  }

  ghost predicate Coherent(actions: seq<Action>, approvals: seq<Approval>) {
    && (forall p | 0 <= p < |approvals| :: approvals[p].action < |actions|)
    && (forall a: nat | a < |actions| :: InStep(actions[a], DecisionOn(approvals, a)))
  }

  /** The approval a gated execution rests on was granted before it began. */
  ghost predicate GrantedBefore(s: State, k: nat, a: nat)
    requires k < |s.log|
  {
    exists p :: 0 <= p < |s.approvals| && s.approvals[p].action == a
      && p in Replayed(s.log[..k], s.caseId).approvals && Replayed(s.log[..k], s.caseId).approvals[p].granted
  }

  ghost predicate EntryOk(s: State, k: nat)
    requires k < |s.log|
  {
    s.log[k].owner == Some(s.caseId) ==>
      match s.log[k].event
      case ActionLogged(a, event) =>
        event.WasExecuting? ==> a < |s.actions| && (s.actions[a].requiresApproval ==> GrantedBefore(s, k, a))
      case ApprovalDecided(p, _, _, role) =>
        p < |s.approvals| && (role == Admin || role == s.approvals[p].requiredRole)
      case _ => true
  }

  ghost predicate Traced(s: State) {
    && |s.log| == |s.snapshots|
    && (forall k | 0 <= k < |s.log| :: Mirrored(s.log, s.snapshots, s.caseId, k))
    && (forall k | 0 <= k < |s.log| :: EntryOk(s, k))
    && (forall k | 0 <= k < |s.log| :: Coherent(s.snapshots[k].actions, s.snapshots[k].approvals))
    && Coherent(s.actions, s.approvals)
    && Replayed(s.log, s.caseId) == Told(s)
    && StageIsMax(s.requests, s.stage)
  }

  lemma TracedIsCoherent(s: State)
    requires Traced(s)
    ensures Coherent(s.actions, s.approvals)
  {}

  lemma TracedStage(s: State)
    requires Traced(s)
    ensures StageIsMax(s.requests, s.stage)
  {}

  /** Tables only grow, and the columns the log refers to never change. */
  ghost predicate Grown(s: State, after: State) {
    && after.caseId == s.caseId
    && after.log == s.log && after.snapshots == s.snapshots
    && |s.actions| <= |after.actions|
    && (forall a | 0 <= a < |s.actions| :: after.actions[a].requiresApproval == s.actions[a].requiresApproval)
    && |s.approvals| <= |after.approvals|
    && (forall p | 0 <= p < |s.approvals| ::
          after.approvals[p].action == s.approvals[p].action
            && after.approvals[p].requiredRole == s.approvals[p].requiredRole)
  }

  lemma GrownKeepsEntries(s: State, after: State)
    requires Grown(s, after) && forall k | 0 <= k < |s.log| :: EntryOk(s, k)
    ensures forall k | 0 <= k < |after.log| :: EntryOk(after, k)
  {
    forall k | 0 <= k < |after.log| ensures EntryOk(after, k) {
      assert EntryOk(s, k);
    }
  }

  /** A change the log does not speak about. */
  lemma SilentStep(s: State, after: State)
    requires Traced(s) && Grown(s, after) && Told(after) == Told(s) && StageIsMax(after.requests, after.stage)
    requires Coherent(after.actions, after.approvals)
    ensures Traced(after)
  {
    hide Coherent;
    GrownKeepsEntries(s, after);
  }

  /** What an entry does to replay. */
  function Seen(r: Snapshot, owner: Option<nat>, event: Event, caseId: nat): Snapshot {
    if owner == Some(caseId) then Fold1(r, event) else r
  }

  /** Neither the start of an execution nor an approval decision. */
  predicate Plain(event: Event) {
    !event.ApprovalDecided? && !(event.ActionLogged? && event.event.WasExecuting?)
  }

  lemma MirroredStays(s: State, k: nat, e: Entry, snap: Picture)
    requires |s.log| == |s.snapshots| && k < |s.log| && Mirrored(s.log, s.snapshots, s.caseId, k)
    ensures Mirrored(s.log + [e], s.snapshots + [snap], s.caseId, k)
  {
    assert (s.log + [e])[..k + 1] == s.log[..k + 1];
    assert k + 1 < |s.log| ==> (s.log + [e])[..k + 2] == s.log[..k + 2];
  }

  lemma EntryStays(s: State, k: nat, owner: Option<nat>, event: Event)
    requires k < |s.log| && EntryOk(s, k)
    ensures EntryOk(Write(s, owner, event), k)
  {
    assert Write(s, owner, event).log[..k] == s.log[..k];
  }

  /** A change of the tables followed by the entry that accounts for it. */
  lemma WriteStep(s: State, after: State, owner: Option<nat>, event: Event)
    requires Traced(s) && Grown(s, after) && StageIsMax(after.requests, after.stage)
    requires Told(after) == Seen(Told(s), owner, event, s.caseId)
    requires !WrittenAhead(Entry(owner, event), s.caseId)
    requires Plain(event) || EntryOk(Write(after, owner, event), |after.log|)
    requires Coherent(after.actions, after.approvals)
    ensures Traced(Write(after, owner, event))
  {
    hide Coherent;
    var e, w, n := Entry(owner, event), Write(after, owner, event), |after.log|;
    GrownKeepsEntries(s, after);
    ReplayedSnoc(s.log, e, s.caseId);
    forall k | 0 <= k < |w.log| ensures Mirrored(w.log, w.snapshots, w.caseId, k) && EntryOk(w, k) {
      if k < n {
        MirroredStays(after, k, e, PictureOf(after));
        EntryStays(after, k, owner, event);
      } else {
        assert w.log[..n + 1] == w.log;
      }
    }
    assert Told(w) == Told(after);
  }

  /** A plain entry of the case with no change to what replay tells. */
  lemma NoteStep(s: State, after: State, owner: Option<nat>, event: Event)
    requires Traced(s) && Grown(s, after) && Told(after) == Told(s)
    requires after.requests == s.requests && after.stage == s.stage
    requires Plain(event) && Fold1(Told(s), event) == Told(s) && !event.StageAdvanced?
    requires Coherent(after.actions, after.approvals)
    ensures Traced(Write(after, owner, event))
  {
    WriteStep(s, after, owner, event);
  }

  // ----- Stage moves -----

  lemma AdvanceStageTraced(s: State, stage: Stage)
    requires Traced(s) && stage != ActionsCoordinated && stage != CustomerUpdated
    ensures Traced(AdvanceStage(s, stage))
  {
    AskKeepsMax(s.requests, s.stage, stage);
    var asked := s.(requests := s.requests + [Ask(stage)]);
    if Index(stage) <= Index(s.stage) {
      SilentStep(s, asked);
    } else {
      WriteStep(s, asked.(stage := stage), Some(s.caseId), StageAdvanced(s.stage, stage));
    }
  }
}
