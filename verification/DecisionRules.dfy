/**
 The next-best-action decision as a table of rules over the rows themselves: which branch applies, what
 it offers, at what price and who must approve it. The engine is proved to follow the table exactly.
 */
module DecisionRules {
  import opened Domain
  import opened Rounding
  import opened Sequences
  import opened CaseState
  import opened NbaEngine
  import Catalog = RecoveryCatalog

  // ----- Remedies -----

  /** The remedies for a category, in the order in which they are tried. */
  function RemediesFor(category: Category): seq<OptionCode> {
    match category
    case DuplicateCharge => [ReverseDuplicateCharge, ExceptionalRemedy, ApologyStatusUpdate]
    case FulfillmentNeverStarted => [ExpeditedReshipment, FullRefund, ExceptionalRemedy, ApologyStatusUpdate]
    case DeliveredButDisputed => [ReplacementOrder, GoodwillCredit, ExceptionalRemedy, ApologyStatusUpdate]
    case RefundNotIssued => [IssueOutstandingRefund, ExceptionalRemedy, ApologyStatusUpdate]
    case PromotionNotHonored => [PriceAdjustment, ExceptionalRemedy, ApologyStatusUpdate]
    case WrongAddressOrFailedDelivery => [RerouteOrReattempt, FullRefund, ExceptionalRemedy, ApologyStatusUpdate]
    case InStoreOnlineConflict => [ManualReconciliationCredit, ExceptionalRemedy, ApologyStatusUpdate]
    case _ => [ExceptionalRemedy, ApologyStatusUpdate]
  }

  /** The cent nearest to so many hundredths of a cent; half-way, the even one. */
  predicate IsNearestCent(cost: nat, hundredths: nat) {
    && -50 <= 100 * cost - hundredths <= 50
    && (100 * cost - hundredths in {-50, 50} ==> cost % 2 == 0)
  }

  /** What a remedy costs at an exposure, in cents. */
  predicate Costs(code: OptionCode, exposure: nat, cost: nat) {
    match code
    case ExpeditedReshipment => IsNearestCent(cost, exposure * 30)
    case RerouteOrReattempt => IsNearestCent(cost, exposure * 15)
    case ManualReconciliationCredit => IsNearestCent(cost, exposure * 20)
    case GoodwillCredit => if exposure >= 25_000 then cost == 2_500 else IsNearestCent(cost, exposure * 10)
    case ExceptionalRemedy => cost == 0
    case ApologyStatusUpdate => cost == 0
    case _ => cost == exposure
  }

  /** From 75 dollars on, and the exceptional remedy always; a rerouting never. */
  predicate NeedsApproval(code: OptionCode, cost: nat) {
    code == ExceptionalRemedy || (cost >= 7_500 && code != RerouteOrReattempt)
  }

  /** The role a remedy is approved by. */
  function ApproverOf(code: OptionCode): Role {
    match code
    case ReverseDuplicateCharge => FinanceApprover
    case FullRefund => FinanceApprover
    case IssueOutstandingRefund => FinanceApprover
    case _ => Supervisor
  }

  // ----- The rows a decision looks at -----

  /** A recovery for that option was rejected or failed, under whatever hypothesis. */
  ghost predicate WasTurnedDown(s: State, code: OptionCode) {
    exists a :: 0 <= a < |s.actions| && s.actions[a].kind == ExecuteRecovery && s.actions[a].target.Remedy?
      && s.actions[a].target.code == code && (s.actions[a].status == Rejected || s.actions[a].status == Failed)
  }

  /** The first remedy for the category not turned down yet. */
  ghost predicate IsNextRemedy(s: State, category: Category, code: OptionCode) {
    exists k :: 0 <= k < |RemediesFor(category)| && RemediesFor(category)[k] == code && !WasTurnedDown(s, code)
      && forall j | 0 <= j < k :: WasTurnedDown(s, RemediesFor(category)[j])
  }

  predicate IsUnderway(a: Action) {
    a.kind == ExecuteRecovery
    && a.status in {Proposed, ActionStatus.PendingApproval, Approved, Executing, Succeeded}
  }

  ghost predicate MayBeSystemic(s: State, category: Category) {
    && category in {FulfillmentNeverStarted, WrongAddressOrFailedDelivery, DeliveredButDisputed,
                    PaymentCapturedOrderNotCreated}
    && (forall a | 0 <= a < |s.actions| :: s.actions[a].kind != EscalateItsm)
    && (forall r | 0 <= r < |s.evidence| && s.evidence[r].customer == s.customer
                     && s.evidence[r].key.source == ItsmIncident :: s.evidence[r].superseded)
  }

  /** The exposure a hypothesis was first assessed at. */
  ghost predicate AssessedAt(s: State, h: nat, exposure: nat) {
    exists i :: 0 <= i < |s.impacts| && s.impacts[i] == Impact(h, exposure)
      && forall j | 0 <= j < i :: s.impacts[j].hypothesis != h
  }

  ghost predicate IsAssessed(s: State, h: nat) {
    exists i :: 0 <= i < |s.impacts| && s.impacts[i].hypothesis == h
  }

  ghost predicate IsFirstRecovered(s: State, a: nat) {
    && a < |s.actions| && s.actions[a].kind == ExecuteRecovery && s.actions[a].status == Succeeded
    && forall b | 0 <= b < a :: !(s.actions[b].kind == ExecuteRecovery && s.actions[b].status == Succeeded)
  }

  ghost predicate SomeMissing(s: State) {
    exists f :: 0 <= f < |s.flags| && s.flags[f].flagType == Missing
  }

  ghost predicate SomeUnderway(s: State) {
    exists a :: 0 <= a < |s.actions| && IsUnderway(s.actions[a])
  }

  ghost predicate Proposes(s: State, kind: ActionKind) {
    exists a :: 0 <= a < |s.actions| && s.actions[a].kind == kind
  }

  ghost predicate HasSucceeded(s: State, kind: ActionKind) {
    exists a :: 0 <= a < |s.actions| && s.actions[a].kind == kind && s.actions[a].status == Succeeded
  }

  // ----- The table -----

  /** The primary hypothesis, while it is active. */
  predicate WorksFrom(s: State, h: nat) {
    s.primary == Some(h) && h < |s.hypotheses| && s.hypotheses[h].status == Active
  }

  /** What may be decided without, and with, a hypothesis to work from. */
  ghost predicate MayChoose(s: State, c: Choice) {
    if exists h: nat :: WorksFrom(s, h) then
      exists h: nat :: WorksFrom(s, h) && FollowsFrom(s, h, c)
    else
      c == Offer(Proposal(NoActiveHypothesis, false, Supervisor, Some(PendingEvidence), None))
  }

  ghost predicate FollowsFrom(s: State, h: nat, c: Choice)
    requires h < |s.hypotheses|
  {
    if s.hypotheses[h].confidence < 6_000 && SomeMissing(s) then
      exists f :: 0 <= f < |s.flags| && s.flags[f].flagType == Missing
        && c == Offer(Proposal(MissingEvidence(f), false, Supervisor, Some(PendingEvidence), Some(EvidenceChecked)))
    else if !IsAssessed(s, h) then
      c == Analyse(h)
    else if MayBeSystemic(s, s.hypotheses[h].category) then
      c == Offer(Proposal(SystemicCheck(h), false, Supervisor, Some(Investigating), None))
    else if !SomeUnderway(s) then
      RecoversWith(s, h, c)
    else if HasSucceeded(s, ExecuteRecovery) && !Proposes(s, NotifyCustomer) then
      exists a: nat :: IsFirstRecovered(s, a)
        && c == Offer(Proposal(RecoveryNotice(a), false, Supervisor, Some(PendingCustomerUpdate), None))
    else if HasSucceeded(s, NotifyCustomer) && !Proposes(s, CloseCase) then
      c == Close(h)
    else
      c == Nothing
  }

  ghost predicate RecoversWith(s: State, h: nat, c: Choice)
    requires h < |s.hypotheses|
  {
    var category := s.hypotheses[h].category;
    if forall code | code in RemediesFor(category) :: WasTurnedDown(s, code) then
      c == Exhausted(h)
    else
      exists code, exposure, cost ::
        && IsNextRemedy(s, category, code) && AssessedAt(s, h, exposure) && Costs(code, exposure, cost)
        && c == Offer(RemedyOf(h, code, cost))
  }

  function RemedyOf(h: nat, code: OptionCode, cost: nat): Proposal {
    var gated := NeedsApproval(code, cost);
    Proposal(Remedy(code, cost, h), gated, ApproverOf(code),
             Some(if gated then CaseStatus.PendingApproval else ActionInProgress), Some(RecoveryOptionsRanked))
  }

  // ----- The catalog agrees -----

  lemma NearestIsRounded(cost: nat, hundredths: nat)
    ensures IsNearestCent(cost, hundredths) <==> cost == RoundHalfEven(hundredths, 100)
  {}

  /** An option at the price, with the gate and the role, of the rules; the role counts only when gated. */
  predicate IsPriced(o: Catalog.RecoveryOption, exposure: nat) {
    && Costs(o.code, exposure, o.cost)
    && o.requiresApproval == NeedsApproval(o.code, o.cost)
    && (if o.approvalRole.Some? then o.approvalRole.value else Supervisor) == ApproverOf(o.code)
  }

  lemma CatalogIsPriced(category: Category, exposure: nat)
    ensures var walk := Catalog.WalkOrder(Catalog.CategoryOptions(category, exposure));
            && |walk| == |RemediesFor(category)|
            && forall k | 0 <= k < |walk| :: walk[k].code == RemediesFor(category)[k] && IsPriced(walk[k], exposure)
  {
    hide IsPriced;
    OptionsArePriced(category, exposure);
    StandingArePriced(exposure);
  }

  lemma StandingArePriced(exposure: nat)
    ensures IsPriced(Catalog.EXCEPTIONAL, exposure) && IsPriced(Catalog.APOLOGY, exposure)
  {}

  lemma OptionsArePriced(category: Category, exposure: nat)
    ensures var c := Catalog.CategoryOptions(category, exposure);
            && |c| + 2 == |RemediesFor(category)|
            && forall k | 0 <= k < |c| :: c[k].code == RemediesFor(category)[k] && IsPriced(c[k], exposure)
  {
    hide RoundHalfEven, IsNearestCent;
    NearestIsRounded(Catalog.Share(exposure, 30), exposure * 30);
    NearestIsRounded(Catalog.Share(exposure, 15), exposure * 15);
    NearestIsRounded(Catalog.Share(exposure, 20), exposure * 20);
    NearestIsRounded(Catalog.Share(exposure, 10), exposure * 10);
  }

  lemma CostIsUnique(code: OptionCode, exposure: nat, x: nat, y: nat)
    requires Costs(code, exposure, x) && Costs(code, exposure, y)
    ensures x == y
  {}

  /** Filtering keeps the first that fits at the front. */
  lemma {:induction false} FirstKept<T(!new)>(s: seq<T>, p: T -> bool)
    requires Filter(s, p) != []
    ensures exists k :: 0 <= k < |s| && s[k] == Filter(s, p)[0] && p(s[k]) && forall j | 0 <= j < k :: !p(s[j])
  {
    var n := |s| - 1;
    if Filter(s[..n], p) != [] {
      FirstKept(s[..n], p);
      var k :| 0 <= k < n && s[..n][k] == Filter(s[..n], p)[0] && p(s[..n][k])
        && forall j | 0 <= j < k :: !p(s[..n][j]);
      assert forall j | 0 <= j < k :: !p(s[j]) by {
        assert forall j | 0 <= j < k :: s[j] == s[..n][j];
      }
      assert s[k] == Filter(s, p)[0];
    } else {
      FilterNone(s[..n], p);
      assert forall j | 0 <= j < n :: s[j] in s[..n];
    }
  }

  /** The next option by the catalog is the next remedy by the rules, at its price. */
  lemma BestIsNext(category: Category, exposure: nat, rejected: set<OptionCode>)
    ensures var o, codes := Catalog.BestOption(Catalog.Rank(category, exposure), rejected), RemediesFor(category);
            && (o.None? <==> forall code | code in codes :: code in rejected)
            && (o.Some? ==>
                  && IsPriced(o.value, exposure)
                  && exists k :: 0 <= k < |codes| && codes[k] == o.value.code && o.value.code !in rejected
                       && forall j | 0 <= j < k :: codes[j] in rejected)
  {
    hide Costs, IsPriced, Filter, RemediesFor, Catalog.BestOption, Catalog.CategoryOptions;
    var c, codes := Catalog.CategoryOptions(category, exposure), RemediesFor(category);
    var walk, p := Catalog.WalkOrder(c), Catalog.NotRejected(rejected);
    Catalog.CategoriesAreAuthored(category, exposure);
    Catalog.ChoiceFollowsWalkOrder(c, rejected);
    CatalogIsPriced(category, exposure);
    if Filter(walk, p) == [] {
      FilterNone(walk, p);
      forall code | code in codes ensures code in rejected {
        var k :| 0 <= k < |codes| && codes[k] == code;
        assert walk[k] in walk;
      }
    } else {
      FirstKept(walk, p);
      var k :| 0 <= k < |walk| && walk[k] == Filter(walk, p)[0] && p(walk[k]) && forall j | 0 <= j < k :: !p(walk[j]);
      assert codes[k] in codes;
    }
  }

  // ----- The engine follows the table -----

  lemma GroundsAre(s: State)
    ensures forall h: nat :: WorksFrom(s, h) <==> Grounds(s) == Some(h)
  {}

  lemma TurnedDownIs(s: State, code: OptionCode)
    ensures WasTurnedDown(s, code) <==> code in RejectedCodes(s.actions)
  {
    if WasTurnedDown(s, code) {
      var a :| 0 <= a < |s.actions| && s.actions[a].kind == ExecuteRecovery && s.actions[a].target.Remedy?
        && s.actions[a].target.code == code && (s.actions[a].status == Rejected || s.actions[a].status == Failed);
      assert s.actions[a] in s.actions;
    }
  }

  lemma QueriesAre(s: State, h: nat)
    requires h < |s.hypotheses|
    ensures SomeMissing(s) <==> Where(s.flags, IsMissing) != []
    ensures IsAssessed(s, h) <==> First(s.impacts, ImpactFor(h)).Some?
    ensures MayBeSystemic(s, s.hypotheses[h].category) <==> NeedsItsmCheck(s, h)
    ensures SomeUnderway(s) <==> First(s.actions, LiveOrDoneRecovery).Some?
    ensures forall kind :: Proposes(s, kind) <==> First(s.actions, OfKind(kind)).Some?
    ensures forall kind :: HasSucceeded(s, kind) <==> First(s.actions, Done(kind)).Some?
  {
    var missing := Where(s.flags, IsMissing);
    if missing != [] {
      assert missing[0] in missing;
    }
    SystemicIs(s, h);
    assert forall a :: IsUnderway(a) <==> LiveOrDoneRecovery(a);
  }

  lemma SystemicIs(s: State, h: nat)
    requires h < |s.hypotheses|
    ensures MayBeSystemic(s, s.hypotheses[h].category) <==> NeedsItsmCheck(s, h)
  {
    var e, r := First(s.actions, OfKind(EscalateItsm)), First(s.evidence, ItsmEvidenceFor(s.customer));
    if e.Some? {
      assert s.actions[e.value].kind == EscalateItsm;
    }
    if r.Some? {
      assert s.evidence[r.value].key.source == ItsmIncident;
    }
  }

  lemma RecoveryIs(s: State, h: nat, i: nat, c: Choice)
    requires h < |s.hypotheses| && First(s.impacts, ImpactFor(h)) == Some(i)
    ensures RecoversWith(s, h, c) <==>
            var o := Catalog.BestOption(Catalog.Rank(s.hypotheses[h].category, s.impacts[i].exposure),
                                        RejectedCodes(s.actions));
            c == if o.None? then Exhausted(h) else Offer(RemedyProposal(h, o.value))
  {
    hide Costs, RejectedCodes, RemediesFor, WasTurnedDown, Catalog.BestOption, Catalog.Rank, First;
    var category, exposure, rejected := s.hypotheses[h].category, s.impacts[i].exposure, RejectedCodes(s.actions);
    var o := Catalog.BestOption(Catalog.Rank(category, exposure), rejected);
    forall code { TurnedDownIs(s, code); }
    BestIsNext(category, exposure, rejected);
    FirstImpactIs(s, h, i);
    if o.Some? {
      NextIs(s, category, o.value.code);
      forall cost | Costs(o.value.code, exposure, cost) ensures cost == o.value.cost {
        CostIsUnique(o.value.code, exposure, cost, o.value.cost);
      }
      assert RemedyProposal(h, o.value) == RemedyOf(h, o.value.code, o.value.cost);
    }
  }

  lemma FirstImpactIs(s: State, h: nat, i: nat)
    requires First(s.impacts, ImpactFor(h)) == Some(i)
    ensures forall exposure :: AssessedAt(s, h, exposure) <==> exposure == s.impacts[i].exposure
  {
    assert s.impacts[i] == Impact(h, s.impacts[i].exposure);
  }

  lemma NextIs(s: State, category: Category, code: OptionCode)
    requires exists k :: 0 <= k < |RemediesFor(category)| && RemediesFor(category)[k] == code && !WasTurnedDown(s, code)
                         && forall j | 0 <= j < k :: WasTurnedDown(s, RemediesFor(category)[j])
    ensures forall other :: IsNextRemedy(s, category, other) <==> other == code
  {
    hide WasTurnedDown, RemediesFor;
  }

  lemma FirstRecoveredIs(s: State)
    ensures forall a: nat :: IsFirstRecovered(s, a) <==> First(s.actions, Done(ExecuteRecovery)) == Some(a)
  {}

  /**
   The engine follows the table: whatever the rows of a case, a choice is one the table allows if and
   only if the engine makes it for some order in which the query lists the open flags.
   */
  lemma EngineFollowsTable(s: State, c: Choice)
    ensures MayChoose(s, c) <==> exists scan: nat :: Choose(s, scan) == c
  {
    hide Choose, FollowsFrom;
    GroundsAre(s);
    if Grounds(s).None? {
      assert Choose(s, 0) == PlainOffer(NoActiveHypothesis, PendingEvidence) by { ChooseUngrounded(s); }
      forall scan: nat ensures Choose(s, scan) == Choose(s, 0) { ChooseUngrounded(s); }
    } else {
      FollowsIs(s, Grounds(s).value, c);
    }
  }

  lemma ChooseUngrounded(s: State)
    requires Grounds(s).None?
    ensures forall scan: nat :: Choose(s, scan) == PlainOffer(NoActiveHypothesis, PendingEvidence)
  {}

  lemma FollowsIs(s: State, h: nat, c: Choice)
    requires Grounds(s) == Some(h)
    ensures FollowsFrom(s, h, c) <==> exists scan: nat :: Choose(s, scan) == c
  {
    QueriesAre(s, h);
    if s.hypotheses[h].confidence < 6_000 && SomeMissing(s) {
      RequestIs(s, h, c);
    } else {
      SettledIs(s, h, c);
      assert forall scan: nat :: Choose(s, scan) == Choose(s, 0) by { ScanIsIdle(s, h); }
    }
  }

  lemma RequestIs(s: State, h: nat, c: Choice)
    requires Grounds(s) == Some(h) && s.hypotheses[h].confidence < 6_000 && Where(s.flags, IsMissing) != []
    ensures (exists f :: 0 <= f < |s.flags| && s.flags[f].flagType == Missing
              && c == Offer(Proposal(MissingEvidence(f), false, Supervisor, Some(PendingEvidence),
                                     Some(EvidenceChecked))))
            <==> exists scan: nat :: Choose(s, scan) == c
  {
    hide AnyOf;
    var missing := Where(s.flags, IsMissing);
    forall f | 0 <= f < |s.flags| && s.flags[f].flagType == Missing
      ensures exists scan: nat :: AnyOf(missing, scan) == f
    {
      AnyRowCanBeReturned(missing, f);
    }
    assert forall scan: nat ::
        Choose(s, scan) == Offer(Proposal(MissingEvidence(AnyOf(missing, scan)), false, Supervisor,
                                          Some(PendingEvidence), Some(EvidenceChecked)));
    assert forall scan: nat :: AnyOf(missing, scan) in missing;
  }

  lemma ScanIsIdle(s: State, h: nat)
    requires Grounds(s) == Some(h) && !(s.hypotheses[h].confidence < 6_000 && Where(s.flags, IsMissing) != [])
    ensures forall scan: nat :: Choose(s, scan) == Choose(s, 0)
  {
    hide NeedsItsmCheck, ChooseRemedy, First, Where;
  }

  lemma SettledIs(s: State, h: nat, c: Choice)
    requires Grounds(s) == Some(h) && !(s.hypotheses[h].confidence < 6_000 && SomeMissing(s))
    ensures FollowsFrom(s, h, c) <==> Choose(s, 0) == c
  {
    hide RecoversWith, Catalog.BestOption, Catalog.Rank, RejectedCodes, NeedsItsmCheck, MayBeSystemic, First, Where;
    QueriesAre(s, h);
    FirstRecoveredIs(s);
    var impact := First(s.impacts, ImpactFor(h));
    if impact.Some? {
      RecoveryIs(s, h, impact.value, c);
    }
  }
}
