/** What a decision does to the rows of the case, once it has been made by the table. */
module DecisionEffects {
  import opened Domain
  import opened Sequences
  import opened CaseState
  import opened NbaEngine
  import opened ActionTable
  import opened ActionSafety
  import opened DecisionRules
  import Catalog = RecoveryCatalog

  // ----- Which decisions are the same -----

  /** Two targets stand for one decision: asked, analysed, checked, offered, told or closed once. */
  predicate SameDecision(x: Target, y: Target) {
    || (x.NoActiveHypothesis? && y.NoActiveHypothesis?)
    || (x.MissingEvidence? && y.MissingEvidence? && x.flag == y.flag)
    || (x.ImpactOf? && y.ImpactOf? && x.hypothesis == y.hypothesis)
    || (x.SystemicCheck? && y.SystemicCheck? && x.hypothesis == y.hypothesis)
    || (x.Remedy? && y.Remedy? && x.hypothesis == y.hypothesis && x.code == y.code)
    || (x.RecoveryNotice? && y.RecoveryNotice? && x.recovery == y.recovery)
    || (x.Closure? && y.Closure? && x.hypothesis == y.hypothesis)
  }

  /** The idempotency key tells decisions apart, and nothing else: a remedy's price is not part of it. */
  lemma KeysTellDecisions(x: Target, y: Target)
    ensures KeyOf(x) == KeyOf(y) <==> SameDecision(x, y)
  {}

  /** What kind of action a target calls for. */
  predicate CallsFor(t: Target, kind: ActionKind) {
    || (kind == RequestEvidence && (t.NoActiveHypothesis? || t.MissingEvidence?))
    || (kind == RunAnalysis && t.ImpactOf?)
    || (kind == EscalateItsm && t.SystemicCheck?)
    || (kind == ExecuteRecovery && t.Remedy?)
    || (kind == NotifyCustomer && t.RecoveryNotice?)
    || (kind == CloseCase && t.Closure?)
  }

  lemma KindIsCalledFor(t: Target, kind: ActionKind)
    ensures CallsFor(t, kind) <==> kind == KindOf(t)
  {}

  // ----- The effect of each choice -----

  predicate InFlight(a: Action) {
    a.status in {Proposed, ActionStatus.PendingApproval, Approved, Executing}
  }

  predicate DecidedBefore(actions: seq<Action>, t: Target, a: nat) {
    a < |actions| && SameDecision(actions[a].target, t)
  }

  /** The row for a target, in that status. */
  predicate IsRowFor(row: Action, t: Target, status: ActionStatus, gated: bool) {
    CallsFor(t, row.kind) && row.target == t && row.status == status && row.requiresApproval == gated
  }

  /** One row is added, logged last; its approval, if it needs one, is pending with that role. */
  ghost predicate AddsRow(s: State, t: Target, status: ActionStatus, gated: bool, role: Role, after: State) {
    var id := |s.actions|;
    && |after.actions| == id + 1
    && after.actions[..id] == s.actions
    && IsRowFor(after.actions[id], t, status, gated)
    && after.approvals == s.approvals + if gated then [Approval(id, role, Pending, None)] else []
  }

  /** The case's own entries added since, in order. */
  ghost predicate Writes(s: State, after: State, events: seq<Event>) {
    after.log == s.log + seq(|events|, k requires 0 <= k < |events| => Entry(Some(s.caseId), events[k]))
  }

  /** The entry a stage request leaves, if it moves the case forward. */
  function Moved(from: Stage, to: Stage): seq<Event> {
    if Earlier(from, to) then [StageAdvanced(from, to)] else []
  }

  ghost predicate TakesEffect(s: State, c: Choice, exposure: nat, after: State, answer: Option<nat>) {
    match c
    case Offer(p) =>
      && p.status == Some(after.status)
      && after.requests == s.requests + (if p.stage.Some? then [Ask(p.stage.value)] else [])
      && after.impacts == s.impacts
      && answer.Some?
      && var moved := if p.stage.Some? then Moved(s.stage, p.stage.value) else [];
         if exists a: nat :: DecidedBefore(s.actions, p.target, a) then
           && DecidedBefore(s.actions, p.target, answer.value)
           && after.actions == s.actions && after.approvals == s.approvals
           && Writes(s, after, moved)
         else
           && answer.value == |s.actions|
           && AddsRow(s, p.target, if p.requiresApproval then ActionStatus.PendingApproval else Proposed,
                p.requiresApproval, p.role, after)
           && Writes(s, after, moved + [ActionLogged(|s.actions|, WasProposed(after.actions[|s.actions|].kind,
                                                                              p.requiresApproval))])
    case Analyse(h) =>
      && after.status == Investigating
      && after.requests == s.requests + [Ask(ImpactAssessed)]
      && after.impacts == s.impacts + [Impact(h, exposure)]
      && AddsRow(s, ImpactOf(h), Succeeded, false, Supervisor, after)
      && answer == Some(|s.actions|)
      && Writes(s, after, [ActionLogged(|s.actions|, WasProposed(RunAnalysis, false)), ImpactComputed(|s.impacts|)]
                          + Moved(s.stage, ImpactAssessed))
    case Close(h) =>
      && after.status == Closed
      && after.requests == s.requests + [Ask(OutcomeRetained)]
      && after.impacts == s.impacts
      && AddsRow(s, Closure(h), Succeeded, false, Supervisor, after)
      && answer == Some(|s.actions|)
      && Writes(s, after, [ActionLogged(|s.actions|, WasProposed(CloseCase, false))] + Moved(s.stage, OutcomeRetained)
                          + [CaseClosed])
    case Exhausted(h) =>
      && after == s.(log := after.log, snapshots := after.snapshots)
      && Writes(s, after, [OptionsExhausted(h)])
      && answer == None
    case Nothing => after == s && answer == None
  }

  lemma AskedIs(s: State, stage: Stage)
    ensures AdvanceStage(s, stage).requests == s.requests + [Ask(stage)]
    ensures Writes(s, AdvanceStage(s, stage), Moved(s.stage, stage))
  {
    EarlierIs(s.stage, stage);
  }

  lemma WritesThen(s: State, t: State, u: State, first: seq<Event>, second: seq<Event>)
    requires Writes(s, t, first) && Writes(t, u, second) && t.caseId == s.caseId
    ensures Writes(s, u, first + second)
  {}

  lemma WritesNothing(s: State, t: State)
    requires t.log == s.log
    ensures Writes(s, t, [])
  {}

  lemma WritesOne(s: State, t: State, event: Event)
    requires t.log == s.log && t.caseId == s.caseId
    ensures Writes(s, Record(t, event), [event])
  {}

  lemma PreparedIs(s: State, p: Proposal)
    requires p.status.Some?
    ensures var r := Prepared(s, p);
            && r.status == p.status.value && r.caseId == s.caseId
            && r.requests == s.requests + (if p.stage.Some? then [Ask(p.stage.value)] else [])
            && Writes(s, r, if p.stage.Some? then Moved(s.stage, p.stage.value) else [])
  {
    hide AdvanceStage, Moved;
    if p.stage.Some? {
      AskedIs(s.(status := p.status.value), p.stage.value);
    }
  }

  lemma DecidedBeforeIs(actions: seq<Action>, t: Target)
    requires TableOk(actions)
    ensures var r := First(actions, HasKey(KeyOf(t)));
            && (r.Some? <==> exists a: nat :: DecidedBefore(actions, t, a))
            && (r.Some? ==> DecidedBefore(actions, t, r.value))
  {
    hide KeyOf, PairOk, CausesOk, SameDecision;
    forall a: nat | a < |actions| ensures DecidedBefore(actions, t, a) <==> HasKey(KeyOf(t))(actions[a]) {
      assert RowOk(actions[a]);
      KeysTellDecisions(actions[a].target, t);
    }
  }

  /** A new row is the last thing a proposal writes. */
  lemma InsertionIs(s: State, p: Proposal)
    requires First(s.actions, HasKey(KeyOf(p.target))).None?
    ensures var (after, a), id := Propose(s, p), |s.actions|;
            && a == id
            && after.actions == s.actions + [NewAction(p)]
            && after.approvals ==
                 s.approvals + (if p.requiresApproval then [Approval(id, p.role, Pending, None)] else [])
            && after.impacts == s.impacts && after.caseId == s.caseId
            && after.status == Prepared(s, p).status && after.stage == Prepared(s, p).stage
            && after.requests == Prepared(s, p).requests
            && Writes(Prepared(s, p), after, [ActionLogged(id, WasProposed(KindOf(p.target), p.requiresApproval))])
  {
    hide AdvanceStage;
  }

  lemma OfferTakesEffect(s: State, p: Proposal, exposure: nat)
    requires TableOk(s.actions) && p.status.Some?
    ensures var (after, a) := Propose(s, p); TakesEffect(s, Offer(p), exposure, after, Some(a))
  {
    hide Prepared, TableOk, KeyOf, KindOf, DecidedBefore, Writes, Moved, Insert;
    PreparedIs(s, p);
    DecidedBeforeIs(s.actions, p.target);
    KindIsCalledFor(p.target, KindOf(p.target));
    if First(s.actions, HasKey(KeyOf(p.target))).None? {
      InsertionIs(s, p);
      WritesThen(s, Prepared(s, p), Propose(s, p).0, if p.stage.Some? then Moved(s.stage, p.stage.value) else [],
        [ActionLogged(|s.actions|, WasProposed(KindOf(p.target), p.requiresApproval))]);
    }
  }

  lemma AnalysisTakesEffect(s: State, h: nat, exposure: nat)
    requires Safe(s) && First(s.impacts, ImpactFor(h)).None?
    ensures var (after, a) := Analysed(s, h, exposure); TakesEffect(s, Analyse(h), exposure, after, Some(a))
  {
    hide Safe, Analysed, Writes;
    AnalysisIsFresh(s, h, exposure);
    NoAnalysisKey(s, h);
    AnalysisWrites(s, h, exposure);
  }

  lemma NoAnalysisKey(s: State, h: nat)
    requires Safe(s) && First(s.impacts, ImpactFor(h)).None?
    ensures First(s.actions, HasKey(KeyOf(ImpactOf(h)))).None?
  {
    hide TableOk, ApprovalsOk, ExecutionsOk, RequestsOk;
  }

  /** A proposal without a stage leaves the stage, and writes one entry if it is new. */
  lemma PlainInsertion(s: State, p: Proposal)
    requires First(s.actions, HasKey(KeyOf(p.target))).None? && p.stage.None?
    ensures var (s1, a) := Propose(s, p);
            && a == |s.actions| && s1.caseId == s.caseId && s1.stage == s.stage && s1.requests == s.requests
            && s1.impacts == s.impacts && s1.actions == s.actions + [NewAction(p)]
            && Writes(s, s1, [ActionLogged(|s.actions|, WasProposed(KindOf(p.target), p.requiresApproval))])
  {}

  lemma AnalysisWrites(s: State, h: nat, exposure: nat)
    requires First(s.actions, HasKey(KeyOf(ImpactOf(h)))).None?
    ensures var after := Analysed(s, h, exposure).0;
            && after.requests == s.requests + [Ask(ImpactAssessed)]
            && Writes(s, after,
                 [ActionLogged(|s.actions|, WasProposed(RunAnalysis, false)), ImpactComputed(|s.impacts|)]
                 + Moved(s.stage, ImpactAssessed))
  {
    hide AdvanceStage, Propose, Writes, Moved;
    var p := Proposal(ImpactOf(h), false, Supervisor, Some(Investigating), None);
    PlainInsertion(s, p);
    var (s1, a) := Propose(s, p);
    var s2 := Record(s1.(impacts := s1.impacts + [Impact(h, exposure)]), ImpactComputed(|s1.impacts|));
    WritesOne(s1, s1.(impacts := s1.impacts + [Impact(h, exposure)]), ImpactComputed(|s1.impacts|));
    var proposed := ActionLogged(|s.actions|, WasProposed(RunAnalysis, false));
    WritesThen(s, s1, s2, [proposed], [ImpactComputed(|s.impacts|)]);
    assert [proposed] + [ImpactComputed(|s.impacts|)] == [proposed, ImpactComputed(|s.impacts|)];
    AskedIs(s2, ImpactAssessed);
    WritesThen(s, s2, AdvanceStage(s2, ImpactAssessed), [proposed, ImpactComputed(|s.impacts|)],
      Moved(s.stage, ImpactAssessed));
    SameWrites(s, AdvanceStage(s2, ImpactAssessed), Analysed(s, h, exposure).0,
      [proposed, ImpactComputed(|s.impacts|)] + Moved(s.stage, ImpactAssessed));
  }

  lemma SameWrites(s: State, t: State, u: State, events: seq<Event>)
    requires Writes(s, t, events) && u.log == t.log
    ensures Writes(s, u, events)
  {}

  lemma ClosureTakesEffect(s: State, h: nat, exposure: nat)
    requires Safe(s) && First(s.actions, OfKind(CloseCase)).None?
    ensures var (after, a) := ClosedOut(s, h); TakesEffect(s, Close(h), exposure, after, Some(a))
  {
    hide ClosedOut, Writes, ApprovalsOk, ExecutionsOk, ImpactsOk, RequestsOk, TableOk;
    ClosureIsFresh(s, h);
    NoClosureKey(s.actions, h);
    ClosureWrites(s, h);
  }

  lemma ClosureWrites(s: State, h: nat)
    requires First(s.actions, HasKey(KeyOf(Closure(h)))).None?
    ensures var after := ClosedOut(s, h).0;
            && after.requests == s.requests + [Ask(OutcomeRetained)]
            && Writes(s, after, [ActionLogged(|s.actions|, WasProposed(CloseCase, false))]
                                + Moved(s.stage, OutcomeRetained) + [CaseClosed])
  {
    hide AdvanceStage, Propose, Writes, Moved;
    var p := Proposal(Closure(h), false, Supervisor, None, None);
    PlainInsertion(s, p);
    var (s1, a) := Propose(s, p);
    var s2 := AdvanceStage(s1.(status := Closed), OutcomeRetained);
    AskedIs(s1.(status := Closed), OutcomeRetained);
    var proposed := [ActionLogged(|s.actions|, WasProposed(CloseCase, false))];
    SameWrites(s, s1, s1.(status := Closed), proposed);
    WritesThen(s, s1.(status := Closed), s2, proposed, Moved(s.stage, OutcomeRetained));
    WritesOne(s2, SetStatus(s2, a, Succeeded), CaseClosed);
    WritesThen(s, s2, ClosedOut(s, h).0, proposed + Moved(s.stage, OutcomeRetained), [CaseClosed]);
  }

  lemma ChoiceTakesEffect(s: State, scan: nat, exposure: nat)
    requires Safe(s) && First(s.actions, IsLive).None?
    ensures var c := Choose(s, scan);
            var (after, answer) := Enact(s, c, exposure);
            TakesEffect(s, c, exposure, after, answer)
  {
    hide Choose, Propose, Analysed, ClosedOut, RequestsOk, ApprovalsOk, ExecutionsOk, ImpactsOk, TableOk;
    ChoiceWarranted(s, scan);
    match Choose(s, scan)
    case Offer(p) =>
      OffersSetStatus(s, scan, p);
      OfferTakesEffect(s, p, exposure);
    case Analyse(h) => AnalysisTakesEffect(s, h, exposure);
    case Close(h) => ClosureTakesEffect(s, h, exposure);
    case _ =>
  }

  lemma OffersSetStatus(s: State, scan: nat, p: Proposal)
    requires Choose(s, scan) == Offer(p)
    ensures p.status.Some?
  {
    hide Catalog.BestOption, Catalog.Rank, RejectedCodes;
  }

  /**
   A decision, whatever the state of a safe case: the action in flight if there is one, noted in the log
   if the case was marked for re-evaluation; else the mark is cleared and what the table calls for is done.
   */
  lemma DecisionTakesEffect(s: State, scan: nat, exposure: nat)
    requires Safe(s)
    ensures var (after, answer) := Decide(s, scan, exposure);
            if exists a: nat :: a < |s.actions| && InFlight(s.actions[a]) then
              && answer.Some? && answer.value < |s.actions| && InFlight(s.actions[answer.value])
              && after == s.(log := after.log, snapshots := after.snapshots)
              && after.log == s.log +
                   (if s.reevaluate then [Entry(Some(s.caseId), ReevaluationDeferred(answer.value))] else [])
            else
              exists c :: MayChoose(s, c) && TakesEffect(s.(reevaluate := false), c, exposure, after, answer)
  {
    hide Safe, Choose, Enact, TakesEffect, MayChoose;
    var live := First(s.actions, IsLive);
    LiveIs(s.actions);
    if live.None? {
      var calm := s.(reevaluate := false);
      SafeIgnoresMark(s, calm);
      ChoiceTakesEffect(calm, scan, exposure);
      EngineFollowsTable(s, Choose(s, scan));
      ChoiceIgnoresMark(s, calm, scan);
    }
  }

  lemma LiveIs(actions: seq<Action>)
    ensures First(actions, IsLive).Some? <==> exists a: nat :: a < |actions| && InFlight(actions[a])
    ensures First(actions, IsLive).Some? ==> InFlight(actions[First(actions, IsLive).value])
  {}

  lemma SafeIgnoresMark(s: State, calm: State)
    requires Safe(s) && calm == s.(reevaluate := false)
    ensures Safe(calm)
  {}

  lemma ChoiceIgnoresMark(s: State, calm: State, scan: nat)
    requires calm == s.(reevaluate := false)
    ensures Choose(calm, scan) == Choose(s, scan)
  {}
}
