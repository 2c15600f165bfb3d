/** The tiered recovery catalog and the choice the NBA engine makes from it. */
module RecoveryCatalog {
  import opened Domain
  import opened Rounding
  import opened Sequences

  const APPROVAL_THRESHOLD: nat := 7500  // cents
  const GOODWILL_CAP: nat := 2500

  datatype RecoveryOption = RecoveryOption(
    code: OptionCode,
    cost: nat,
    requiresApproval: bool,
    approvalRole: Option<Role>)

  /** A remedy whose approval flag follows from its cost. */
  function Tiered(code: OptionCode, cost: nat, role: Role): RecoveryOption {
    RecoveryOption(code, cost, cost >= APPROVAL_THRESHOLD, Some(role))
  }

  function Share(exposure: nat, percent: nat): nat {
    RoundHalfEven(exposure * percent, 100)
  }

  const APOLOGY := RecoveryOption(ApologyStatusUpdate, 0, false, None)
  const EXCEPTIONAL := RecoveryOption(ExceptionalRemedy, 0, true, Some(Supervisor))

  /** The options authored for a category, primary remedy first. */
  function CategoryOptions(category: Category, exposure: nat): seq<RecoveryOption> {
    match category
    case DuplicateCharge =>
      [Tiered(ReverseDuplicateCharge, exposure, FinanceApprover)]
    case FulfillmentNeverStarted =>
      [Tiered(ExpeditedReshipment, Share(exposure, 30), Supervisor),
       Tiered(FullRefund, exposure, FinanceApprover)]
    case DeliveredButDisputed =>
      [Tiered(ReplacementOrder, exposure, Supervisor),
       Tiered(GoodwillCredit, if exposure >= 10 * GOODWILL_CAP then GOODWILL_CAP else Share(exposure, 10), Supervisor)]
    case RefundNotIssued =>
      [Tiered(IssueOutstandingRefund, exposure, FinanceApprover)]
    case PromotionNotHonored =>
      [Tiered(PriceAdjustment, exposure, Supervisor)]
    case WrongAddressOrFailedDelivery =>
      [RecoveryOption(RerouteOrReattempt, Share(exposure, 15), false, None),
       Tiered(FullRefund, exposure, FinanceApprover)]
    case InStoreOnlineConflict =>
      [Tiered(ManualReconciliationCredit, Share(exposure, 20), Supervisor)]
    case _ => []
  }

  /** Apology pinned first, exceptional remedy last, category order between. */
  function Rank(category: Category, exposure: nat): seq<RecoveryOption> {
    Ranked(CategoryOptions(category, exposure))
  }

  function Ranked(c: seq<RecoveryOption>): seq<RecoveryOption> {
    [APOLOGY] + c + [EXCEPTIONAL]
  }

  function Substantive(rejected: set<OptionCode>): RecoveryOption -> bool {
    (o: RecoveryOption) => o.code != ApologyStatusUpdate && o.code !in rejected
  }

  function NotRejected(rejected: set<OptionCode>): RecoveryOption -> bool {
    (o: RecoveryOption) => o.code !in rejected
  }

  /** The best-ranked option not yet rejected; the apology only when nothing substantive is left. */
  function BestOption(options: seq<RecoveryOption>, rejected: set<OptionCode>): (r: Option<RecoveryOption>)
    ensures r.Some? ==> r.value in options && r.value.code !in rejected
    ensures r.None? ==> forall o | o in options :: o.code in rejected
  {
    var substantive := Filter(options, Substantive(rejected));
    FilterMembers(options, Substantive(rejected));
    if substantive != [] then
      assert substantive[0] in substantive;
      Some(substantive[0])
    else
      var r := First(options, NotRejected(rejected));
      if r.Some? then Some(options[r.value]) else None
  }

  // ----- The rejection walk -----

  /** The order in which rejections exhaust a list of category options. */
  function WalkOrder(c: seq<RecoveryOption>): seq<RecoveryOption> {
    c + [EXCEPTIONAL, APOLOGY]
  }

  /** The codes of a category's options differ from each other and from the two standing options. */
  predicate Authored(c: seq<RecoveryOption>) {
    && (forall i, j | 0 <= i < j < |c| :: c[i].code != c[j].code)
    && (forall i | 0 <= i < |c| :: c[i].code != ApologyStatusUpdate && c[i].code != ExceptionalRemedy)
  }

  lemma CategoriesAreAuthored(category: Category, exposure: nat)
    ensures Authored(CategoryOptions(category, exposure))
    ensures |CategoryOptions(category, exposure)| <= 2
  {}

  predicate IsCode(code: OptionCode) { true }

  function AllCodes(): set<OptionCode> {
    set code: OptionCode | IsCode(code)
  }

  /** What is offered when every offer in turn is rejected or fails. */
  function Offers(options: seq<RecoveryOption>, rejected: set<OptionCode>): seq<RecoveryOption>
    decreases AllCodes() - rejected
  {
    match BestOption(options, rejected)
    case None => []
    case Some(o) =>
      assert IsCode(o.code) && o.code in AllCodes() - rejected;
      [o] + Offers(options, rejected + {o.code})
  }

  lemma SubstantiveOptions(c: seq<RecoveryOption>, rejected: set<OptionCode>)
    requires Authored(c)
    ensures Filter(Ranked(c), Substantive(rejected)) == Filter(c + [EXCEPTIONAL], NotRejected(rejected))
  {
    hide Filter, Authored, CategoryOptions;
    var p, q := Substantive(rejected), NotRejected(rejected);
    FilterConcat([APOLOGY] + c, [EXCEPTIONAL], p);
    FilterConcat([APOLOGY], c, p);
    FilterConcat(c, [EXCEPTIONAL], q);
    FilterSingle(APOLOGY, p);
    FilterSingle(EXCEPTIONAL, p);
    FilterSingle(EXCEPTIONAL, q);
    SameOnSubstantive(c, rejected);
  }

  /** Choosing from the ranked list is taking the first unrejected option of the walk order. */
  lemma ChoiceFollowsWalkOrder(c: seq<RecoveryOption>, rejected: set<OptionCode>)
    requires Authored(c)
    ensures var left := Filter(WalkOrder(c), NotRejected(rejected));
            BestOption(Ranked(c), rejected) == if left == [] then None else Some(left[0])
  {
    var q := NotRejected(rejected);
    SubstantiveOptions(c, rejected);
    assert WalkOrder(c) == (c + [EXCEPTIONAL]) + [APOLOGY];
    FilterAppend(c + [EXCEPTIONAL], APOLOGY, q);
    var main := Filter(c + [EXCEPTIONAL], q);
    if main == [] {
      assert Ranked(c)[0] == APOLOGY;
      OnlyApologyLeft(c, rejected);
    }
  }

  lemma OnlyApologyLeft(c: seq<RecoveryOption>, rejected: set<OptionCode>)
    requires Filter(c + [EXCEPTIONAL], NotRejected(rejected)) == []
    ensures First(Ranked(c), NotRejected(rejected)) == if APOLOGY.code in rejected then None else Some(0)
  {
    FilterNone(c + [EXCEPTIONAL], NotRejected(rejected));
    var r := Ranked(c);
    assert r[0] == APOLOGY;
    forall i | 0 < i < |r| ensures r[i].code in rejected {
      assert r[i] in c + [EXCEPTIONAL];
    }
  }

  lemma FilterSingle(o: RecoveryOption, p: RecoveryOption -> bool)
    ensures Filter([o], p) == if p(o) then [o] else []
  {
    FilterAppend([], o, p);
    assert [] + [o] == [o];
  }

  lemma {:induction false} SameOnSubstantive(c: seq<RecoveryOption>, rejected: set<OptionCode>)
    requires Authored(c)
    ensures Filter(c, Substantive(rejected)) == Filter(c, NotRejected(rejected))
  {
    if c != [] {
      SameOnSubstantive(c[..|c| - 1], rejected);
    }
  }

  lemma NextOffer(c: seq<RecoveryOption>, rejected: set<OptionCode>)
    requires Authored(c)
    ensures var left := Filter(WalkOrder(c), NotRejected(rejected));
            if left == [] then BestOption(Ranked(c), rejected) == None
            else && BestOption(Ranked(c), rejected) == Some(left[0])
                 && left[0].code !in rejected
                 && Filter(WalkOrder(c), NotRejected(rejected + {left[0].code})) == left[1..]
  {
    ChoiceFollowsWalkOrder(c, rejected);
    if Filter(WalkOrder(c), NotRejected(rejected)) != [] {
      DropFirst(WalkOrder(c), rejected);
    }
  }

  /** From any set of past rejections, exactly the rest of the walk order is offered, in order. */
  lemma {:induction false} RejectionWalk(c: seq<RecoveryOption>, rejected: set<OptionCode>)
    requires Authored(c)
    ensures Offers(Ranked(c), rejected) == Filter(WalkOrder(c), NotRejected(rejected))
    decreases AllCodes() - rejected
  {
    NextOffer(c, rejected);
    var left := Filter(WalkOrder(c), NotRejected(rejected));
    if left != [] {
      var code := left[0].code;
      assert IsCode(code) && code in AllCodes() - rejected;
      RejectionWalk(c, rejected + {code});
    }
  }

  lemma {:induction false} DropFirst(walk: seq<RecoveryOption>, rejected: set<OptionCode>)
    requires forall i, j | 0 <= i < j < |walk| :: walk[i].code != walk[j].code
    requires Filter(walk, NotRejected(rejected)) != []
    ensures var left := Filter(walk, NotRejected(rejected));
            Filter(walk, NotRejected(rejected + {left[0].code})) == left[1..]
  {
    var n := |walk| - 1;
    var left := Filter(walk[..n], NotRejected(rejected));
    if left == [] {
      FilterNone(walk[..n], NotRejected(rejected));
      FilterNone(walk[..n], NotRejected(rejected + {walk[n].code}));
    } else {
      FilterMembers(walk[..n], NotRejected(rejected));
      assert left[0] in left;
      assert left[0] in walk[..n];
      DropFirst(walk[..n], rejected);
    }
  }

  /** Starting fresh: category options in authored order, exceptional remedy, apology, then nothing. */
  lemma RejectionWalkFromStart(category: Category, exposure: nat)
    ensures Offers(Rank(category, exposure), {}) == CategoryOptions(category, exposure) + [EXCEPTIONAL, APOLOGY]
  {
    var c := CategoryOptions(category, exposure);
    CategoriesAreAuthored(category, exposure);
    RejectionWalk(c, {});
    FilterAll(WalkOrder(c), NotRejected({}));
  }

  // ----- The approval gate -----

  /**
   An option escapes approval exactly when it is a rerouting, whatever that costs, or costs
   less than the threshold and is not the exceptional remedy.
   */
  predicate EscapesApproval(code: OptionCode, cost: nat) {
    code == RerouteOrReattempt || (cost < APPROVAL_THRESHOLD && code != ExceptionalRemedy)
  }

  /** Who signs off money leaving the company, and who everything else. */
  function SignOff(code: OptionCode): Role {
    if code == ReverseDuplicateCharge || code == FullRefund || code == IssueOutstandingRefund then FinanceApprover
    else Supervisor
  }

  /** What is offered is gated by that rule, and a gated offer names the right approver. */
  lemma ApprovalGate(category: Category, exposure: nat, rejected: set<OptionCode>)
    ensures var o := BestOption(Rank(category, exposure), rejected);
            o.Some? ==>
              && (o.value.requiresApproval <==> !EscapesApproval(o.value.code, o.value.cost))
              && (o.value.requiresApproval ==> o.value.approvalRole == Some(SignOff(o.value.code)))
  {
    var o := BestOption(Rank(category, exposure), rejected);
    if o.Some? && o.value != APOLOGY && o.value != EXCEPTIONAL {
      assert o.value in CategoryOptions(category, exposure);
    }
  }

  lemma ShareIsWithin(exposure: nat, percent: nat)
    requires percent <= 50
    ensures Share(exposure, percent) <= exposure
  {
    var x := exposure * percent;
    assert x <= exposure * 50;
    assert x / 100 + (if x % 100 == 0 then 0 else 1) <= exposure;
  }

  /** No remedy on offer costs more than the exposure it answers. */
  lemma CostWithinExposure(category: Category, exposure: nat)
    ensures forall o | o in Rank(category, exposure) :: o.cost <= exposure
  {
    ShareIsWithin(exposure, 30);
    ShareIsWithin(exposure, 10);
    ShareIsWithin(exposure, 15);
    ShareIsWithin(exposure, 20);
    var c := CategoryOptions(category, exposure);
    assert forall i | 0 <= i < |c| :: c[i].cost <= exposure;
  }

  /** The least exposure, in cents, at which a category's primary remedy needs approval, if any does. */
  function GateAt(category: Category): Option<nat> {
    match category
    case DuplicateCharge => Some(7_500)
    case FulfillmentNeverStarted => Some(24_999)
    case DeliveredButDisputed => Some(7_500)
    case RefundNotIssued => Some(7_500)
    case PromotionNotHonored => Some(7_500)
    case InStoreOnlineConflict => Some(37_498)
    case _ => None
  }

  /** Rounding included, the primary remedy is gated exactly from that exposure on. */
  lemma PrimaryGatedFrom(category: Category, exposure: nat)
    requires CategoryOptions(category, exposure) != []
    ensures CategoryOptions(category, exposure)[0].requiresApproval <==>
              GateAt(category).Some? && exposure >= GateAt(category).value
  {
    HalfWayUp(exposure * 30, 100, APPROVAL_THRESHOLD);
    HalfWayUp(exposure * 20, 100, APPROVAL_THRESHOLD);
  }

  lemma FirstOffer(c: seq<RecoveryOption>)
    requires Authored(c) && c != []
    ensures BestOption(Ranked(c), {}) == Some(c[0])
  {
    ChoiceFollowsWalkOrder(c, {});
    FilterAll(WalkOrder(c), NotRejected({}));
    assert WalkOrder(c)[0] == c[0];
  }

  /** The documented rule "at or above the threshold requires approval" fails for a rerouting. */
  lemma RerouteEscapesApproval()
    ensures var o := BestOption(Rank(WrongAddressOrFailedDelivery, 100_000), {});
            o.Some? && o.value.cost >= APPROVAL_THRESHOLD && !o.value.requiresApproval
  {
    var c := CategoryOptions(WrongAddressOrFailedDelivery, 100_000);
    CategoriesAreAuthored(WrongAddressOrFailedDelivery, 100_000);
    FirstOffer(c);
    assert c[0] == RecoveryOption(RerouteOrReattempt, Share(100_000, 15), false, None);
    assert RoundHalfEven(1_500_000, 100) == 15_000;
  }
}
