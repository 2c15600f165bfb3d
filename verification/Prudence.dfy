/** Remedies come last: after the analysis of their hypothesis and after ruling out a systemic cause. */
module Prudence {
  import opened Domain
  import opened Sequences
  import opened CaseState
  import opened EvidenceStore
  import opened HypothesisEngine
  import opened NbaEngine
  import opened Orchestrator
  import opened ActionTable
  import opened ActionSafety
  import opened Tracing
  import opened HypothesisInvariants
  import opened Runs
  import opened AppendOnly
  import opened CaseCycle
  import Rules = DecisionRules
  import Catalog = RecoveryCatalog

  /** An earlier action analysed the hypothesis. */
  ghost predicate AnalysedBefore(actions: seq<Action>, i: nat, h: nat) {
    exists j :: 0 <= j < i && j < |actions| && actions[j].target == ImpactOf(h)
  }

  ghost predicate EscalatedBefore(actions: seq<Action>, i: nat) {
    exists j :: 0 <= j < i && j < |actions| && actions[j].kind == EscalateItsm
  }

  /** The entry that logs an action's proposal. */
  predicate Proposes(e: Entry, caseId: nat, a: nat) {
    e.owner == Some(caseId) && e.event.ActionLogged? && e.event.action == a && e.event.event.WasProposed?
  }

  /** When the action was proposed, an incident about this customer was on record and not superseded. */
  ghost predicate IncidentWasKnown(s: State, i: nat) {
    exists m :: 0 <= m < |s.log| && m < |s.snapshots| && Proposes(s.log[m], s.caseId, i)
      && IncidentAmong(s.snapshots[m].evidence, s.customer)
  }

  /** When the action was proposed, no such incident was on record. */
  ghost predicate NoIncidentWasKnown(s: State, i: nat) {
    exists m :: 0 <= m < |s.log| && m < |s.snapshots| && Proposes(s.log[m], s.caseId, i)
      && !IncidentAmong(s.snapshots[m].evidence, s.customer)
  }

  predicate IncidentAmong(rows: seq<Evidence>, customer: nat) {
    exists r :: 0 <= r < |rows|
      && rows[r].customer == customer && rows[r].key.source == ItsmIncident && !rows[r].superseded
  }

  /** What comes before a remedy: its hypothesis, analysed, and checked for a systemic cause if prone to one. */
  ghost predicate RemedyPrepared(s: State, i: nat)
    requires i < |s.actions|
  {
    s.actions[i].target.Remedy? ==>
      var h := s.actions[i].target.hypothesis;
      && h < |s.hypotheses|
      && AnalysedBefore(s.actions, i, h)
      && (OfSystemicSort(s.hypotheses[h].category) ==> EscalatedBefore(s.actions, i) || IncidentWasKnown(s, i))
  }

  /** The four categories that may be a symptom of a wider incident. */
  predicate OfSystemicSort(c: Category) {
    c in {FulfillmentNeverStarted, WrongAddressOrFailedDelivery, DeliveredButDisputed, PaymentCapturedOrderNotCreated}
  }

  /** What comes before an escalation: its hypothesis, of the four categories, analysed; and no incident known. */
  ghost predicate EscalationWarranted(s: State, i: nat)
    requires i < |s.actions|
  {
    s.actions[i].kind == EscalateItsm ==>
      && s.actions[i].target.SystemicCheck?
      && var h := s.actions[i].target.hypothesis;
         && h < |s.hypotheses|
         && AnalysedBefore(s.actions, i, h)
         && OfSystemicSort(s.hypotheses[h].category)
         && NoIncidentWasKnown(s, i)
  }

  /** The hypothesis was assessed at that exposure. */
  ghost predicate Assessed(s: State, h: nat, exposure: nat) {
    exists j :: 0 <= j < |s.impacts| && s.impacts[j] == Impact(h, exposure)
  }

  /** A remedy is one for its hypothesis's category, at the price and with the gate its exposure calls for. */
  ghost predicate RemedyFits(s: State, i: nat)
    requires i < |s.actions|
  {
    s.actions[i].target.Remedy? ==>
      var code, cost, h := s.actions[i].target.code, s.actions[i].target.cost, s.actions[i].target.hypothesis;
      && h < |s.hypotheses|
      && code in Rules.RemediesFor(s.hypotheses[h].category)
      && s.actions[i].requiresApproval == Rules.NeedsApproval(code, cost)
      && exists exposure :: Assessed(s, h, exposure) && Rules.Costs(code, exposure, cost)
  }

  ghost predicate RowPrudent(s: State, i: nat)
    requires i < |s.actions|
  {
    RemedyPrepared(s, i) && EscalationWarranted(s, i) && RemedyFits(s, i)
  }

  ghost predicate Prudent(s: State) {
    forall i: nat | i < |s.actions| :: RowPrudent(s, i)
  }

  lemma StillPrepared(s: State, after: State, i: nat)
    requires Extends(s, after) && i < |s.actions| && RemedyPrepared(s, i)
    ensures RemedyPrepared(after, i)
  {
    if s.actions[i].target.Remedy? {
      var h := s.actions[i].target.hypothesis;
      var j :| 0 <= j < i && j < |s.actions| && s.actions[j].target == ImpactOf(h);
      assert after.actions[j].target == ImpactOf(h);
      if EscalatedBefore(s.actions, i) {
        var k :| 0 <= k < i && k < |s.actions| && s.actions[k].kind == EscalateItsm;
        assert after.actions[k].kind == EscalateItsm;
      } else if IncidentWasKnown(s, i) {
        IncidentStaysKnown(s, after, i);
      }
    }
  }

  lemma IncidentStaysKnown(s: State, after: State, i: nat)
    requires Extends(s, after) && IncidentWasKnown(s, i)
    ensures IncidentWasKnown(after, i)
  {
    hide IncidentAmong;
    var m :| 0 <= m < |s.log| && m < |s.snapshots| && Proposes(s.log[m], s.caseId, i)
      && IncidentAmong(s.snapshots[m].evidence, s.customer);
    assert after.log[m] == s.log[m] && after.snapshots[m] == s.snapshots[m];
  }

  lemma EscalationStaysWarranted(s: State, after: State, i: nat)
    requires Extends(s, after) && i < |s.actions| && EscalationWarranted(s, i)
    ensures EscalationWarranted(after, i)
  {
    hide IncidentAmong;
    if s.actions[i].kind == EscalateItsm {
      var h := s.actions[i].target.hypothesis;
      var j :| 0 <= j < i && j < |s.actions| && s.actions[j].target == ImpactOf(h);
      assert after.actions[j].target == ImpactOf(h);
      var m :| 0 <= m < |s.log| && m < |s.snapshots| && Proposes(s.log[m], s.caseId, i)
        && !IncidentAmong(s.snapshots[m].evidence, s.customer);
      assert after.log[m] == s.log[m] && after.snapshots[m] == s.snapshots[m];
    }
  }

  lemma RowStaysPrudent(s: State, after: State, i: nat)
    requires Extends(s, after) && i < |s.actions| && RowPrudent(s, i)
    ensures RowPrudent(after, i)
  {
    hide Extends;
    StillPrepared(s, after, i);
    EscalationStaysWarranted(s, after, i);
    StillFits(s, after, i);
  }

  lemma StillFits(s: State, after: State, i: nat)
    requires Extends(s, after) && i < |s.actions| && RemedyFits(s, i)
    ensures RemedyFits(after, i)
  {
    hide Rules.Costs, Rules.RemediesFor, Rules.NeedsApproval;
    if s.actions[i].target.Remedy? {
      var h := s.actions[i].target.hypothesis;
      var exposure :| Assessed(s, h, exposure)
        && Rules.Costs(s.actions[i].target.code, exposure, s.actions[i].target.cost);
      var j :| 0 <= j < |s.impacts| && s.impacts[j] == Impact(h, exposure);
      assert after.impacts[j] == Impact(h, exposure);
      assert Assessed(after, h, exposure);
    }
  }

  /** An operation that adds no action keeps remedies prepared and escalations warranted. */
  lemma NoRowKeepsPrudent(s: State, after: State)
    requires Prudent(s) && Extends(s, after) && |after.actions| == |s.actions|
    ensures Prudent(after)
  {
    hide RowPrudent, Extends;
    forall i: nat | i < |after.actions| ensures RowPrudent(after, i) {
      RowStaysPrudent(s, after, i);
    }
  }

  lemma NewRowKeepsPrudent(s: State, after: State)
    requires Prudent(s) && Extends(s, after) && |after.actions| == |s.actions| + 1 && RowPrudent(after, |s.actions|)
    ensures Prudent(after)
  {
    hide RowPrudent, Extends;
    forall i: nat | i < |after.actions| ensures RowPrudent(after, i) {
      if i < |s.actions| {
        RowStaysPrudent(s, after, i);
      }
    }
  }

  /** By the time a remedy is offered, branches 2 to 4 have been passed. */
  lemma RemedyOfferedLast(s: State, scan: nat, p: Proposal)
    requires Choose(s, scan) == Offer(p) && p.target.Remedy?
    ensures Grounds(s) == Some(p.target.hypothesis)
    ensures exists i :: 0 <= i < |s.impacts| && s.impacts[i].hypothesis == p.target.hypothesis
    ensures OfSystemicSort(s.hypotheses[p.target.hypothesis].category) ==>
              (exists i :: 0 <= i < |s.actions| && s.actions[i].kind == EscalateItsm)
              || IncidentAmong(s.evidence, s.customer)
    ensures !(s.hypotheses[p.target.hypothesis].confidence < 6_000
              && exists i :: 0 <= i < |s.flags| && s.flags[i].flagType == Missing)
  {
    hide Catalog.BestOption, Catalog.Rank, RejectedCodes;
    var missing := Where(s.flags, IsMissing);
    assert forall i | 0 <= i < |s.flags| && IsMissing(s.flags[i]) :: i in missing;
    var e, r := First(s.actions, OfKind(EscalateItsm)), First(s.evidence, ItsmEvidenceFor(s.customer));
    if e.Some? {
      assert s.actions[e.value].kind == EscalateItsm;
    } else if r.Some? {
      assert s.evidence[r.value].key.source == ItsmIncident;
    }
  }

  /** An escalation is offered for nothing but an analysed hypothesis of the four categories, with no incident known. */
  lemma EscalationOfferedWhen(s: State, scan: nat, p: Proposal)
    requires Choose(s, scan) == Offer(p) && KindOf(p.target) == EscalateItsm
    ensures p.target.SystemicCheck? && Grounds(s) == Some(p.target.hypothesis)
    ensures exists i :: 0 <= i < |s.impacts| && s.impacts[i].hypothesis == p.target.hypothesis
    ensures OfSystemicSort(s.hypotheses[p.target.hypothesis].category) && !IncidentAmong(s.evidence, s.customer)
  {
    hide Catalog.BestOption, Catalog.Rank, RejectedCodes;
  }

  /** And always then. */
  lemma EscalationComesNext(s: State, scan: nat, h: nat)
    requires Grounds(s) == Some(h) && OfSystemicSort(s.hypotheses[h].category)
    requires s.hypotheses[h].confidence >= 6_000 || forall i | 0 <= i < |s.flags| :: s.flags[i].flagType != Missing
    requires exists i :: 0 <= i < |s.impacts| && s.impacts[i].hypothesis == h
    requires forall i | 0 <= i < |s.actions| :: s.actions[i].kind != EscalateItsm
    requires !IncidentAmong(s.evidence, s.customer)
    ensures Choose(s, scan).Offer? && Choose(s, scan).proposal.target == SystemicCheck(h)
  {
    var i :| 0 <= i < |s.impacts| && s.impacts[i].hypothesis == h;
    assert ImpactFor(h)(s.impacts[i]);
  }

  lemma OfferedIsPrudent(s: State, scan: nat, p: Proposal, after: State)
    requires Safe(s) && Choose(s, scan) == Offer(p) && Extends(s, after) && |s.log| == |s.snapshots|
    requires after.actions == s.actions + [NewAction(p)] && after == Insert(Prepared(s, p), p)
    ensures RowPrudent(after, |s.actions|)
  {
    hide Choose, Safe, Insert, Prepared, IncidentAmong;
    if p.target.Remedy? {
      RemedyOfferedLast(s, scan, p);
      AnalysisRow(s, after, p.target.hypothesis);
      OfferFits(s, scan, p, after);
      if OfSystemicSort(s.hypotheses[p.target.hypothesis].category) {
        CheckedRow(s, p, after);
      }
    }
    if KindOf(p.target) == EscalateItsm {
      EscalationOfferedWhen(s, scan, p);
      AnalysisRow(s, after, p.target.hypothesis);
      ProposalIsPictured(s, p, after);
    }
  }

  lemma OfferFits(s: State, scan: nat, p: Proposal, after: State)
    requires Choose(s, scan) == Offer(p) && p.target.Remedy? && Extends(s, after)
    requires after.actions == s.actions + [NewAction(p)]
    ensures RemedyFits(after, |s.actions|)
  {
    hide Rules.Costs, Rules.RemediesFor, Rules.NeedsApproval, Extends, Choose, KeyOf, KindOf;
    Rules.EngineFollowsTable(s, Offer(p));
    OfferFitsRules(s, p);
    var h := p.target.hypothesis;
    var exposure :| Assessed(s, h, exposure) && Rules.Costs(p.target.code, exposure, p.target.cost);
    AssessedStays(s, after, h, exposure);
  }

  lemma AssessedStays(s: State, after: State, h: nat, exposure: nat)
    requires Assessed(s, h, exposure) && Extends(s, after) && h < |s.hypotheses|
    ensures Assessed(after, h, exposure) && h < |after.hypotheses|
    ensures after.hypotheses[h].category == s.hypotheses[h].category
  {
    var j :| 0 <= j < |s.impacts| && s.impacts[j] == Impact(h, exposure);
    assert after.impacts[j] == Impact(h, exposure);
  }

  lemma OfferFitsRules(s: State, p: Proposal)
    requires Rules.MayChoose(s, Offer(p)) && p.target.Remedy?
    ensures var code, cost, h := p.target.code, p.target.cost, p.target.hypothesis;
            && h < |s.hypotheses|
            && code in Rules.RemediesFor(s.hypotheses[h].category)
            && p.requiresApproval == Rules.NeedsApproval(code, cost)
            && exists exposure :: Assessed(s, h, exposure) && Rules.Costs(code, exposure, cost)
  {
    hide Rules.Costs, Rules.RemediesFor, Rules.NeedsApproval;
    var h: nat :| Rules.WorksFrom(s, h) && Rules.FollowsFrom(s, h, Offer(p));
    assert Rules.RecoversWith(s, h, Offer(p));
    var code, exposure, cost :| Rules.IsNextRemedy(s, s.hypotheses[h].category, code)
      && Rules.AssessedAt(s, h, exposure) && Rules.Costs(code, exposure, cost)
      && Offer(p) == Offer(Rules.RemedyOf(h, code, cost));
    assert Assessed(s, h, exposure);
  }

  lemma AnalysisRow(s: State, after: State, h: nat)
    requires Safe(s) && Extends(s, after) && exists i :: 0 <= i < |s.impacts| && s.impacts[i].hypothesis == h
    ensures AnalysedBefore(after.actions, |s.actions|, h)
  {
    hide ApprovalsOk, ExecutionsOk, RequestsOk, PairOk, CausesOk;
    var i :| 0 <= i < |s.impacts| && s.impacts[i].hypothesis == h;
    assert ImpactFor(h)(s.impacts[i]);
    var j := First(s.actions, HasKey(KeyOf(ImpactOf(h)))).value;
    assert RowOk(s.actions[j]);
    assert after.actions[j].target == ImpactOf(h);
  }

  lemma CheckedRow(s: State, p: Proposal, after: State)
    requires Extends(s, after) && |s.log| == |s.snapshots| && after == Insert(Prepared(s, p), p)
    requires (exists i :: 0 <= i < |s.actions| && s.actions[i].kind == EscalateItsm)
             || IncidentAmong(s.evidence, s.customer)
    ensures EscalatedBefore(after.actions, |s.actions|) || IncidentWasKnown(after, |s.actions|)
  {
    hide IncidentAmong, Insert, Prepared;
    if i :| 0 <= i < |s.actions| && s.actions[i].kind == EscalateItsm {
      assert after.actions[i].kind == EscalateItsm;
    } else {
      ProposalIsPictured(s, p, after);
    }
  }

  /** The proposal's own entry pictures the evidence the decision was made on. */
  lemma ProposalIsPictured(s: State, p: Proposal, after: State)
    requires |s.log| == |s.snapshots| && after == Insert(Prepared(s, p), p)
    ensures after.log != [] && |after.log| == |after.snapshots| && after.caseId == s.caseId
            && after.customer == s.customer
    ensures Proposes(after.log[|after.log| - 1], s.caseId, |s.actions|)
    ensures after.snapshots[|after.log| - 1].evidence == s.evidence
  {}

  lemma DecideKeepsPrudent(s: State, scan: nat, exposure: nat, after: State)
    requires Inv(s) && Prudent(s) && after == Decide(s, scan, exposure).0
    ensures Prudent(after)
  {
    hide Inv, Prudent, RowPrudent, Decide, Choose, Propose, Analysed, ClosedOut;
    DecideExtends(s, scan, exposure);
    if First(s.actions, IsLive).Some? {
      DecideLive(s, scan, exposure);
      NoRowKeepsPrudent(s, after);
    } else {
      var calm := s.(reevaluate := false);
      DecideFresh(s, scan, exposure);
      EnactKeepsPrudent(s, calm, scan, exposure, after);
    }
  }

  lemma EnactKeepsPrudent(s: State, calm: State, scan: nat, exposure: nat, after: State)
    requires Inv(s) && Prudent(s) && calm == s.(reevaluate := false) && Extends(s, after)
    requires after == Enact(calm, Choose(calm, scan), exposure).0
    ensures Prudent(after)
  {
    hide Prudent, RowPrudent, Choose, Analysed, ClosedOut, Traced, Led, StoreOk, Warranted;
    ChoiceWarranted(calm, scan);
    match Choose(calm, scan)
    case Offer(p) =>
      if First(calm.actions, HasKey(KeyOf(p.target))).Some? {
        NoRowKeepsPrudent(s, after);
      } else {
        TracedHasPictures(s);
        OfferedIsPrudent(calm, scan, p, after);
        NewRowKeepsPrudent(s, after);
      }
    case Analyse(h) => InlineKeepsPrudent(s, calm, Analyse(h), exposure, after);
    case Close(h) => InlineKeepsPrudent(s, calm, Close(h), exposure, after);
    case _ => NoRowKeepsPrudent(s, after);
  }

  lemma TracedHasPictures(s: State)
    requires Inv(s)
    ensures |s.log| == |s.snapshots|
  {}

  lemma InlineKeepsPrudent(s: State, calm: State, choice: Choice, exposure: nat, after: State)
    requires Inv(s) && Prudent(s) && calm == s.(reevaluate := false) && Extends(s, after)
    requires Warranted(calm, choice) && (choice.Analyse? || choice.Close?) && after == Enact(calm, choice, exposure).0
    ensures Prudent(after)
  {
    hide Prudent, Analysed, ClosedOut, Traced, Led, StoreOk, TableOk;
    if choice.Analyse? {
      AnalysisIsFresh(calm, choice.hypothesis, exposure);
    } else {
      ClosureIsFresh(calm, choice.hypothesis);
    }
    NewRowKeepsPrudent(s, after);
  }

  lemma ApplyKeepsPrudent(s: State, op: Op)
    requires Inv(s) && Prudent(s)
    ensures Prudent(Apply(s, op))
  {
    hide Inv, Prudent, Decide, ExecuteIfReady, Generated, Reconciled, Ingested;
    ApplyExtends(s, op);
    match op
    case DecideNext(scan, exposure) => DecideKeepsPrudent(s, scan, exposure, Apply(s, op));
    case Regenerate(specs) =>
      GeneratedFrame(s, specs);
      NoRowKeepsPrudent(s, Apply(s, op));
    case _ => NoRowKeepsPrudent(s, Apply(s, op));
  }

  /**
   Over every run, no remedy was ever proposed before its hypothesis was analysed and checked, and no
   escalation for anything but an analysed hypothesis of the four categories with no incident known; and
   every remedy is one of its category's, at the price and with the gate the assessed exposure calls for.
   */
  lemma {:induction false} RemediesAreAlwaysPrepared(caseId: nat, customer: nat, prior: seq<Delivery>, ops: seq<Op>)
    ensures Prudent(Case(caseId, customer, prior, ops))
  {
    hide Apply, RowPrudent;
    if ops != [] {
      var rest := ops[..|ops| - 1];
      RemediesAreAlwaysPrepared(caseId, customer, prior, rest);
      CaseHolds(caseId, customer, prior, rest);
      ApplyKeepsPrudent(Case(caseId, customer, prior, rest), ops[|ops| - 1]);
    }
  }
}
