/**
 The rejection walk as the engine performs it: however its remedies are refused, by people or by
 failing connectors, a case is offered the catalog's options in walk order and then nothing.
 */
module RefusalWalk {
  import opened Domain
  import opened Sequences
  import opened CaseState
  import opened Confidence
  import opened NbaEngine
  import opened Executor
  import opened Approvals
  import opened Orchestrator
  import opened ActionTable
  import opened ActionSafety
  import opened Runs
  import opened FiniteWork
  import opened HypothesisInvariants
  import opened EvidenceStore
  import opened CaseCycle
  import opened Tracing
  import opened Witnesses
  import Catalog = RecoveryCatalog

  // ----- What becomes of a proposed action -----

  predicate Refused(a: Action) {
    a.status == Rejected || a.status == Failed
  }

  /** Later in the life of the newest action: only its status moved, and a refusal left no other trace. */
  ghost predicate Follows(s: State, t: State) {
    && s.actions != [] && |t.actions| == |s.actions|
    && var n := |s.actions| - 1;
       && t.actions == s.actions[n := s.actions[n].(status := t.actions[n].status)]
       && t.impacts == s.impacts && t.hypotheses == s.hypotheses && t.primary == s.primary && t.customer == s.customer
       && (IsLive(t.actions[n]) || Refused(t.actions[n]) ==> t.flags == s.flags && t.evidence == s.evidence)
  }

  predicate Handles(op: Op) {
    op.Run? || op.Approve?
  }

  lemma FailureLeavesNoTrace(s: State, a: nat, c: Connector, raised: seq<Flag>)
    requires a < |s.actions| && FinalStatus(c) == Failed
    ensures Execute(s, a, c, raised).flags == s.flags && Execute(s, a, c, raised).evidence == s.evidence
  {}

  /** The newest action was live and has moved on; a failure left no trace. */
  ghost predicate Moved(t: State, after: State) {
    && t.actions != [] && |after.actions| == |t.actions|
    && var n := |t.actions| - 1;
       && IsLive(t.actions[n])
       && after.actions == t.actions[n := t.actions[n].(status := after.actions[n].status)]
       && after.impacts == t.impacts && after.hypotheses == t.hypotheses && after.primary == t.primary
         && after.customer == t.customer
       && (IsLive(after.actions[n]) || Refused(after.actions[n]) ==>
         after.flags == t.flags && after.evidence == t.evidence)
  }

  lemma MoveFollows(s: State, t: State, after: State)
    requires Follows(s, t) && Moved(t, after)
    ensures Follows(s, after)
  {}

  lemma RunFacts(t: State, a: nat, c: Connector, raised: seq<Flag>, after: State)
    requires Safe(t) && a < |t.actions| && (t.actions[a].status == Proposed || t.actions[a].status == Approved)
    requires after == Execute(t, a, c, raised)
    ensures after.actions == t.actions[a := t.actions[a].(status := FinalStatus(c))]
    ensures after.impacts == t.impacts && after.hypotheses == t.hypotheses && after.primary == t.primary
            && after.customer == t.customer
    ensures FinalStatus(c) == Failed ==> after.flags == t.flags && after.evidence == t.evidence
  {
    ReadyRunsNow(t, a);
    ExecuteEffect(t, a, c, raised);
    if FinalStatus(c) == Failed {
      FailureLeavesNoTrace(t, a, c, raised);
    }
  }

  lemma FactsMove(t: State, a: nat, status: ActionStatus, after: State)
    requires TableOk(t.actions) && a < |t.actions| && IsLive(t.actions[a])
    requires status == Succeeded || status == NeedsManualReview || status == Failed
    requires after.actions == t.actions[a := t.actions[a].(status := status)]
    requires after.impacts == t.impacts && after.hypotheses == t.hypotheses && after.primary == t.primary
             && after.customer == t.customer
    requires status == Failed ==> after.flags == t.flags && after.evidence == t.evidence
    ensures Moved(t, after)
  {
    LiveIsNewest(t.actions, a);
  }

  lemma RunMoves(t: State, a: nat, c: Connector, raised: seq<Flag>)
    requires Safe(t)
    ensures ExecuteIfReady(t, a, c, raised) == t || Moved(t, ExecuteIfReady(t, a, c, raised))
  {
    if a < |t.actions| && (t.actions[a].status == Proposed || t.actions[a].status == Approved) {
      var after := Execute(t, a, c, raised);
      RunFacts(t, a, c, raised, after);
      FinalIsSettled(c);
      FactsMove(t, a, FinalStatus(c), after);
    }
  }

  lemma FinalIsSettled(c: Connector)
    ensures FinalStatus(c) == Succeeded || FinalStatus(c) == NeedsManualReview || FinalStatus(c) == Failed
  {}

  lemma ApproveMoves(t: State, p: nat, decision: ApprovalStatus, user: User)
    requires Inv(t) && p < |t.approvals| && Decided(t, p, decision, user).Success?
    ensures Moved(t, Decided(t, p, decision, user).value)
  {
    var a := t.approvals[p].action;
    assert ApprovalOk(t.actions, t.approvals[p]) && RowOk(t.actions[a]);
    LiveIsNewest(t.actions, a);
  }

  lemma {:induction false} HandlingFollows(s: State, ops: seq<Op>)
    requires Inv(s) && s.actions != [] && forall op | op in ops :: Handles(op)
    ensures Follows(s, Play(s, ops))
  {
    hide Inv, Apply;
    if ops != [] {
      var n := |ops| - 1;
      assert forall op | op in ops[..n] :: op in ops;
      assert ops[n] in ops;
      HandlingFollows(s, ops[..n]);
      PlayKeeps(s, ops[..n]);
      HandleFollows(s, Play(s, ops[..n]), ops[n]);
    } else {
      assert s.actions[|s.actions| - 1 := s.actions[|s.actions| - 1]] == s.actions;
    }
  }

  lemma IsSafe(t: State)
    requires Inv(t)
    ensures Safe(t)
  {}

  lemma HandleFollows(s: State, t: State, op: Op)
    requires Inv(t) && Follows(s, t) && Handles(op)
    ensures Follows(s, Apply(t, op))
  {
    hide ExecuteIfReady, Inv, Decided;
    IsSafe(t);
    match op
    case Run(a, c, raised) => RunMoves(t, a, c, raised);
    case Approve(p, decision, user) =>
      if p < |t.approvals| && Decided(t, p, decision, user).Success? {
        ApproveMoves(t, p, decision, user);
      }
    if Apply(t, op) != t {
      MoveFollows(s, t, Apply(t, op));
    }
  }

  // ----- Choosing a remedy -----

  /** The engine is about to choose a remedy for h. */
  ghost predicate Choosing(s: State, h: nat, exposure: nat) {
    && Inv(s) && First(s.actions, IsLive).None?
    && Grounds(s) == Some(h)
    && !(s.hypotheses[h].confidence < ACTION_THRESHOLD && Where(s.flags, IsMissing) != [])
    && First(s.impacts, ImpactFor(h)).Some? && s.impacts[First(s.impacts, ImpactFor(h)).value].exposure == exposure
    && !NeedsItsmCheck(s, h)
    && First(s.actions, LiveOrDoneRecovery).None?
  }

  /** A remedy of this hypothesis waits in manual review. */
  ghost predicate ParkedFor(actions: seq<Action>, h: nat, code: OptionCode) {
    exists i :: 0 <= i < |actions|
      && actions[i].key == Key(ExecuteRecovery, OfOption(h, code)) && actions[i].status == NeedsManualReview
  }

  /** What is left of the walk for a category. */
  function Left(category: Category, exposure: nat, rejected: set<OptionCode>): seq<Catalog.RecoveryOption> {
    Filter(Catalog.WalkOrder(Catalog.CategoryOptions(category, exposure)), Catalog.NotRejected(rejected))
  }

  /** Choosing, with this much of the walk left. */
  ghost predicate At(s: State, h: nat, exposure: nat, left: seq<Catalog.RecoveryOption>) {
    Choosing(s, h, exposure) && left == Left(s.hypotheses[h].category, exposure, RejectedCodes(s.actions))
  }

  lemma CatalogOffersWhatIsLeft(
      category: Category, exposure: nat, rejected: set<OptionCode>, left: seq<Catalog.RecoveryOption>)
    requires left == Left(category, exposure, rejected)
    ensures Catalog.BestOption(Catalog.Rank(category, exposure), rejected) == if left == [] then None else Some(left[0])
    ensures left != [] ==> left[0].code !in rejected && Left(category, exposure, rejected + {left[0].code}) == left[1..]
  {
    Catalog.CategoriesAreAuthored(category, exposure);
    Catalog.ChoiceFollowsWalkOrder(Catalog.CategoryOptions(category, exposure), rejected);
    Catalog.NextOffer(Catalog.CategoryOptions(category, exposure), rejected);
  }

  lemma RemedyStep(s: State, h: nat, exposure: nat, scan: nat, chosen: Option<Catalog.RecoveryOption>)
    requires Grounds(s) == Some(h)
    requires !(s.hypotheses[h].confidence < ACTION_THRESHOLD && Where(s.flags, IsMissing) != [])
    requires First(s.impacts, ImpactFor(h)).Some?
             && s.impacts[First(s.impacts, ImpactFor(h)).value].exposure == exposure
    requires !NeedsItsmCheck(s, h) && First(s.actions, LiveOrDoneRecovery).None?
    requires Catalog.BestOption(Catalog.Rank(s.hypotheses[h].category, exposure), RejectedCodes(s.actions)) == chosen
    ensures Choose(s, scan) == if chosen.None? then Exhausted(h) else Offer(RemedyProposal(h, chosen.value))
  {}

  lemma NextRemedy(s: State, h: nat, exposure: nat, scan: nat, left: seq<Catalog.RecoveryOption>)
    requires At(s, h, exposure, left)
    ensures Choose(s.(reevaluate := false), scan) == if left == [] then Exhausted(h)
            else Offer(RemedyProposal(h, left[0]))
  {
    CatalogOffersWhatIsLeft(s.hypotheses[h].category, exposure, RejectedCodes(s.actions), left);
    RemedyStep(s.(reevaluate := false), h, exposure, scan, if left == [] then None else Some(left[0]));
  }

  /** A refused remedy adds its code to the rejected ones. */
  lemma RefusalIsRemembered(actions: seq<Action>, x: Action)
    requires x.kind == ExecuteRecovery && x.target.Remedy? && Refused(x)
    ensures RejectedCodes(actions + [x]) == RejectedCodes(actions) + {x.target.code}
  {
    assert x in actions + [x] && forall a | a in actions :: a in actions + [x];
  }

  lemma RejectedCodesGrow(actions: seq<Action>, more: seq<Action>, x: Action)
    requires more == actions + [x] && x.kind == ExecuteRecovery && x.target.Remedy? && Refused(x)
    requires First(actions, IsLive).None? && First(actions, LiveOrDoneRecovery).None?
    ensures First(more, IsLive).None? && First(more, LiveOrDoneRecovery).None?
    ensures RejectedCodes(more) == RejectedCodes(actions) + {x.target.code}
    ensures First(more, OfKind(EscalateItsm)) == First(actions, OfKind(EscalateItsm))
  {
    FirstAppended(actions, x, IsLive);
    FirstAppended(actions, x, LiveOrDoneRecovery);
    FirstSnoc(actions, x, OfKind(EscalateItsm));
    RefusalIsRemembered(actions, x);
  }

  lemma NoRowYet(actions: seq<Action>, h: nat, code: OptionCode)
    requires TableOk(actions) && code !in RejectedCodes(actions) && First(actions, LiveOrDoneRecovery).None?
    requires !ParkedFor(actions, h, code)
    ensures First(actions, HasKey(Key(ExecuteRecovery, OfOption(h, code)))).None?
  {
    forall i | 0 <= i < |actions| ensures actions[i].key != Key(ExecuteRecovery, OfOption(h, code)) {
      assert RowOk(actions[i]) && actions[i] in actions && !LiveOrDoneRecovery(actions[i]);
    }
  }

  /** A row for an option that was neither rejected nor failed is one parked in manual review. */
  lemma OldRowIsParked(actions: seq<Action>, h: nat, code: OptionCode, e: nat)
    requires TableOk(actions) && code !in RejectedCodes(actions) && First(actions, LiveOrDoneRecovery).None?
    requires First(actions, HasKey(Key(ExecuteRecovery, OfOption(h, code)))) == Some(e)
    ensures actions[e].status == NeedsManualReview
  {
    assert RowOk(actions[e]) && actions[e] in actions && !LiveOrDoneRecovery(actions[e]);
  }

  lemma ProposalIsNew(s: State, h: nat, exposure: nat, left: seq<Catalog.RecoveryOption>)
    requires At(s, h, exposure, left) && left != [] && !ParkedFor(s.actions, h, left[0].code)
    ensures First(s.actions, HasKey(Key(ExecuteRecovery, OfOption(h, left[0].code)))).None?
  {
    CatalogOffersWhatIsLeft(s.hypotheses[h].category, exposure, RejectedCodes(s.actions), left);
    NoRowYet(s.actions, h, left[0].code);
  }

  lemma DecisionProposes(s: State, scan: nat, computed: nat, s1: State, p: Proposal)
    requires Inv(s) && First(s.actions, IsLive).None? && First(s.actions, HasKey(KeyOf(p.target))).None?
    requires Choose(s.(reevaluate := false), scan) == Offer(p) && s1 == Decide(s, scan, computed).0
    ensures s1.actions == s.actions + [NewAction(p)] && s1.impacts == s.impacts
    ensures SameHypotheses(s, s1) && s1.flags == s.flags && Inv(s1)
  {
    OfferIsInserted(s, scan, computed, p);
    DecisionKeeps(s, scan, computed, s1);
  }

  lemma RefusedRow(s: State, s1: State, p: Proposal, after: State)
    requires SameHypotheses(s, s1) && s1.flags == s.flags && s1.impacts == s.impacts
    requires s1.actions == s.actions + [NewAction(p)]
    requires Follows(s1, after) && Refused(after.actions[|after.actions| - 1])
    ensures AfterRefusal(s, after) && after.actions[|s.actions|].target == p.target
    ensures after.actions[|s.actions|].kind == KindOf(p.target)
  {}

  /** One more refused row and nothing else. */
  ghost predicate AfterRefusal(s: State, after: State) {
    && |after.actions| == |s.actions| + 1 && after.actions == s.actions + [after.actions[|s.actions|]]
    && Refused(after.actions[|s.actions|])
    && after.hypotheses == s.hypotheses && after.primary == s.primary && after.impacts == s.impacts
    && after.flags == s.flags && after.evidence == s.evidence && after.customer == s.customer
  }

  lemma ChoosingAgain(s: State, h: nat, exposure: nat, after: State)
    requires Choosing(s, h, exposure) && Inv(after) && AfterRefusal(s, after)
    requires after.actions[|s.actions|].kind == ExecuteRecovery && after.actions[|s.actions|].target.Remedy?
    ensures Choosing(after, h, exposure)
  {
    hide Inv, RejectedCodes;
    RejectedCodesGrow(s.actions, after.actions, after.actions[|s.actions|]);
  }

  lemma AtAgain(s: State, h: nat, exposure: nat, left: seq<Catalog.RecoveryOption>, after: State)
    requires At(s, h, exposure, left) && left != [] && Inv(after) && AfterRefusal(s, after)
    requires after.actions[|s.actions|].kind == ExecuteRecovery
    requires after.actions[|s.actions|].target == Remedy(left[0].code, left[0].cost, h)
    ensures At(after, h, exposure, left[1..])
  {
    ChoosingAgain(s, h, exposure, after);
    RefusalIsRemembered(s.actions, after.actions[|s.actions|]);
    CatalogOffersWhatIsLeft(s.hypotheses[h].category, exposure, RejectedCodes(s.actions), left);
  }

  /** The engine decided once, and what it proposed was in the end refused, whoever handled it how. */
  ghost predicate RefusedOnce(s: State, after: State) {
    exists scan, exposure, ops :: HandledAndRefused(s, after, scan, exposure, ops)
  }

  ghost predicate HandledAndRefused(s: State, after: State, scan: nat, exposure: nat, ops: seq<Op>) {
    && (forall op | op in ops :: Handles(op))
    && after == Play(Decide(s, scan, exposure).0, ops)
    && after.actions != [] && Refused(after.actions[|after.actions| - 1])
  }

  lemma HandledRow(s1: State, ops: seq<Op>, after: State)
    requires Inv(s1) && s1.actions != [] && (forall op | op in ops :: Handles(op)) && after == Play(s1, ops)
    ensures Follows(s1, after) && Inv(after)
  {
    HandlingFollows(s1, ops);
    PlayKeeps(s1, ops);
  }

  lemma DecisionOffersNext(s: State, h: nat, exposure: nat, left: seq<Catalog.RecoveryOption>, scan: nat, p: Proposal)
    requires At(s, h, exposure, left) && left != [] && p == RemedyProposal(h, left[0])
    requires !ParkedFor(s.actions, h, left[0].code)
    ensures First(s.actions, HasKey(KeyOf(p.target))).None?
    ensures Choose(s.(reevaluate := false), scan) == Offer(p)
  {
    hide At, Choose;
    NextRemedy(s, h, exposure, scan, left);
    ProposalIsNew(s, h, exposure, left);
    assert KeyOf(p.target) == Key(ExecuteRecovery, OfOption(h, left[0].code));
  }

  lemma RefusalRow(s: State, scan: nat, computed: nat, ops: seq<Op>, p: Proposal, s1: State, after: State)
    requires Inv(s1) && SameHypotheses(s, s1) && s1.flags == s.flags && s1.impacts == s.impacts
    requires s1.actions == s.actions + [NewAction(p)] && (forall op | op in ops :: Handles(op))
             && after == Play(s1, ops)
    requires after.actions != [] && Refused(after.actions[|after.actions| - 1])
    ensures AfterRefusal(s, after) && after.actions[|s.actions|].target == p.target
    ensures after.actions[|s.actions|].kind == KindOf(p.target) && Inv(after)
  {
    HandledRow(s1, ops, after);
    RefusedRow(s, s1, p, after);
  }

  lemma HandledDecision(s: State, scan: nat, computed: nat, ops: seq<Op>, p: Proposal, after: State)
    requires Inv(s) && First(s.actions, IsLive).None? && First(s.actions, HasKey(KeyOf(p.target))).None?
    requires Choose(s.(reevaluate := false), scan) == Offer(p) && HandledAndRefused(s, after, scan, computed, ops)
    ensures AfterRefusal(s, after) && after.actions[|s.actions|].target == p.target
    ensures after.actions[|s.actions|].kind == KindOf(p.target) && Inv(after)
  {
    var s1 := Decide(s, scan, computed).0;
    DecisionProposes(s, scan, computed, s1, p);
    RefusalRow(s, scan, computed, ops, p, s1, after);
  }

  /** A refused row parks nothing. */
  lemma ParkedStays(s: State, after: State, h: nat)
    requires AfterRefusal(s, after)
    ensures forall code :: ParkedFor(after.actions, h, code) <==> ParkedFor(s.actions, h, code)
  {
    forall code ensures ParkedFor(after.actions, h, code) <==> ParkedFor(s.actions, h, code) {
      if ParkedFor(s.actions, h, code) {
        var i :| 0 <= i < |s.actions|
          && s.actions[i].key == Key(ExecuteRecovery, OfOption(h, code)) && s.actions[i].status == NeedsManualReview;
        assert after.actions[i] == s.actions[i];
      }
      if ParkedFor(after.actions, h, code) {
        var i :| 0 <= i < |after.actions|
          && after.actions[i].key == Key(ExecuteRecovery, OfOption(h, code))
            && after.actions[i].status == NeedsManualReview;
        assert after.actions[i] == s.actions[i];
      }
    }
  }

  /**
   One refusal takes the first option of what is left, if that is not parked, and leaves the engine
   choosing again.
   */
  lemma RefusalStep(s: State, h: nat, exposure: nat, left: seq<Catalog.RecoveryOption>, after: State)
    requires At(s, h, exposure, left) && RefusedOnce(s, after)
    requires left != [] && !ParkedFor(s.actions, h, left[0].code)
    ensures At(after, h, exposure, left[1..])
    ensures forall code :: ParkedFor(after.actions, h, code) <==> ParkedFor(s.actions, h, code)
    ensures |after.actions| == |s.actions| + 1
    ensures after.actions[|s.actions|].target == Remedy(left[0].code, left[0].cost, h)
  {
    hide Decide, Choose, Inv;
    var scan, computed, ops :| HandledAndRefused(s, after, scan, computed, ops);
    var p := RemedyProposal(h, left[0]);
    DecisionOffersNext(s, h, exposure, left, scan, p);
    HandledDecision(s, scan, computed, ops, p, after);
    AtAgain(s, h, exposure, left, after);
    ParkedStays(s, after, h);
  }

  /** The first option left is parked: deciding hands the parked row back and proposes nothing. */
  lemma ParkedIsHandedBack(s: State, h: nat, exposure: nat, left: seq<Catalog.RecoveryOption>, scan: nat, computed: nat)
    requires At(s, h, exposure, left) && left != [] && ParkedFor(s.actions, h, left[0].code)
    ensures var (after, a) := Decide(s, scan, computed);
            && after.actions == s.actions && a.Some? && a.value < |s.actions|
            && s.actions[a.value].key == Key(ExecuteRecovery, OfOption(h, left[0].code))
            && s.actions[a.value].status == NeedsManualReview
  {
    hide Inv, Choose, Catalog.BestOption, Catalog.Rank, RejectedCodes;
    NextRemedy(s, h, exposure, scan, left);
    DecideFresh(s, scan, computed);
    var key := Key(ExecuteRecovery, OfOption(h, left[0].code));
    ParkedIsFound(s, h, exposure, left);
    assert KeyOf(RemedyProposal(h, left[0]).target) == key;
  }

  lemma ParkedIsFound(s: State, h: nat, exposure: nat, left: seq<Catalog.RecoveryOption>)
    requires At(s, h, exposure, left) && left != [] && ParkedFor(s.actions, h, left[0].code)
    ensures var e := First(s.actions, HasKey(Key(ExecuteRecovery, OfOption(h, left[0].code))));
            e.Some? && s.actions[e.value].status == NeedsManualReview
  {
    hide Traced, Led, StoreOk;
    var key := Key(ExecuteRecovery, OfOption(h, left[0].code));
    var i :| 0 <= i < |s.actions| && s.actions[i].key == key && s.actions[i].status == NeedsManualReview;
    assert HasKey(key)(s.actions[i]);
    CatalogOffersWhatIsLeft(s.hypotheses[h].category, exposure, RejectedCodes(s.actions), left);
    OldRowIsParked(s.actions, h, left[0].code, First(s.actions, HasKey(key)).value);
  }

  /** Where a walk of i refusals has arrived. */
  ghost predicate Arrived(
    s: State, t: State, h: nat, exposure: nat, left: seq<Catalog.RecoveryOption>, i: nat)
    requires i <= |left|
  {
    var base := |s.actions|;
    && At(t, h, exposure, left[i..])
    && |t.actions| == base + i
    && (forall code :: ParkedFor(t.actions, h, code) <==> ParkedFor(s.actions, h, code))
    && (i > 0 ==> t.actions[base + i - 1].target == Remedy(left[i - 1].code, left[i - 1].cost, h))
  }

  lemma ArrivesNext(
    s: State, t: State, h: nat, exposure: nat, left: seq<Catalog.RecoveryOption>, i: nat, after: State)
    requires i < |left| && Arrived(s, t, h, exposure, left, i) && RefusedOnce(t, after)
    requires !ParkedFor(s.actions, h, left[i].code)
    ensures Arrived(s, after, h, exposure, left, i + 1)
  {
    hide At, RefusedOnce, ParkedFor;
    RefusalStep(t, h, exposure, left[i..], after);
    assert left[i..][1..] == left[i + 1..];
  }

  lemma {:induction false} WalkGoesOn(
    walk: seq<State>, h: nat, exposure: nat, left: seq<Catalog.RecoveryOption>, i: nat)
    requires walk != [] && Arrived(walk[0], walk[0], h, exposure, left, 0)
    requires forall i | 0 <= i < |walk| - 1 :: RefusedOnce(walk[i], walk[i + 1])
    requires i < |walk| && i <= |left| && forall k | 0 <= k < i :: !ParkedFor(walk[0].actions, h, left[k].code)
    ensures Arrived(walk[0], walk[i], h, exposure, left, i)
  {
    hide Arrived, RefusedOnce, ParkedFor;
    if i > 0 {
      WalkGoesOn(walk, h, exposure, left, i - 1);
      assert RefusedOnce(walk[i - 1], walk[i - 1 + 1]);
      ArrivesNext(walk[0], walk[i - 1], h, exposure, left, i - 1, walk[i]);
    }
  }

  /**
   However often its remedies are refused, a case is offered exactly the options left in its
   category's walk, in order; once they are used up, deciding reports exhaustion. The walk ends
   early at an option parked in manual review for the same hypothesis: deciding hands the parked
   row back, each time.
   */
  lemma RefusalsWalkTheCatalog(
    walk: seq<State>, h: nat, exposure: nat, left: seq<Catalog.RecoveryOption>, i: nat, scan: nat, computed: nat)
    requires walk != [] && At(walk[0], h, exposure, left)
    requires forall i | 0 <= i < |walk| - 1 :: RefusedOnce(walk[i], walk[i + 1])
    requires i < |walk| && i <= |left| && forall k | 0 <= k < i :: !ParkedFor(walk[0].actions, h, left[k].code)
    ensures |walk[i].actions| == |walk[0].actions| + i
    ensures i > 0 ==> walk[i].actions[|walk[0].actions| + i - 1].target == Remedy(left[i - 1].code, left[i - 1].cost, h)
    ensures Choose(walk[i].(reevaluate := false), scan) == if i == |left| then Exhausted(h)
            else Offer(RemedyProposal(h, left[i]))
    ensures i < |left| && ParkedFor(walk[0].actions, h, left[i].code) ==>
              var (after, a) := Decide(walk[i], scan, computed);
              && after.actions == walk[i].actions && a.Some? && a.value < |after.actions|
              && after.actions[a.value].key == Key(ExecuteRecovery, OfOption(h, left[i].code))
              && after.actions[a.value].status == NeedsManualReview
  {
    hide At, RefusedOnce, ParkedFor, Decide, Choose;
    assert left[0..] == left;
    WalkGoesOn(walk, h, exposure, left, i);
    NextRemedy(walk[i], h, exposure, scan, left[i..]);
    if i < |left| && ParkedFor(walk[0].actions, h, left[i].code) {
      ParkedIsHandedBack(walk[i], h, exposure, left[i..], scan, computed);
    }
  }

  // ----- Such cases are reachable -----

  /** A case just analysed, with its category's whole walk ahead of it. */
  lemma WalkCanBegin()
    ensures exists s :: Reachable(s) && At(s, 0, 0, Catalog.WalkOrder(Catalog.CategoryOptions(DuplicateCharge, 0)))
              && forall code :: !ParkedFor(s.actions, 0, code)
  {
    hide Inv, Reachable, Undecided, Untried, At, ParkedFor;
    FirstHypothesis();
    var s :| Early(s, [], [NewRow(CLICK)]) && Grounds(s) == Some(0) && s.hypotheses[0].category == DuplicateCharge;
    EarlyIsUntried(s);
    UntriedIsAnalysed(s, 0);
    ReachesNext(s, DecideNext(0, 0), Decide(s, 0, 0).0);
    BeginsToChoose(s, Decide(s, 0, 0).0);
  }

  lemma WholeWalk(category: Category)
    ensures Left(category, 0, {}) == Catalog.WalkOrder(Catalog.CategoryOptions(category, 0))
  {
    hide Catalog.CategoryOptions;
    FilterAll(Catalog.WalkOrder(Catalog.CategoryOptions(category, 0)), Catalog.NotRejected({}));
  }

  lemma OneAssessment()
    ensures First([Impact(0, 0)], ImpactFor(0)) == Some(0)
  {
    assert [Impact(0, 0)][..0] == [];
  }

  /** With nothing rejected yet, the walk begins at its first option. */
  lemma ChoosesFromTheStart(s: State)
    requires Inv(s) && s.flags == [] && s.impacts == [Impact(0, 0)]
    requires Grounds(s) == Some(0) && s.hypotheses[0].category == DuplicateCharge
    requires First(s.actions, IsLive).None? && First(s.actions, LiveOrDoneRecovery).None?
    requires RejectedCodes(s.actions) == {}
    ensures At(s, 0, 0, Catalog.WalkOrder(Catalog.CategoryOptions(DuplicateCharge, 0)))
  {
    hide Inv, First, Left, RejectedCodes, NeedsItsmCheck, Catalog.WalkOrder, Catalog.CategoryOptions;
    WholeWalk(DuplicateCharge);
    OneAssessment();
    NoItsmCheckNeeded(s, 0);
    assert Where(s.flags, IsMissing) == [];
  }

  lemma BeginsToChoose(s: State, after: State)
    requires s.actions == [] && s.impacts == [] && s.flags == [] && Grounds(s) == Some(0)
    requires s.hypotheses[0].category == DuplicateCharge && Inv(after) && SameHypotheses(s, after) && after.flags == []
    requires after.actions == s.actions + [Analysis(0)] && after.impacts == s.impacts + [Impact(0, 0)]
    ensures At(after, 0, 0, Catalog.WalkOrder(Catalog.CategoryOptions(DuplicateCharge, 0)))
    ensures forall code :: !ParkedFor(after.actions, 0, code)
  {
    hide Inv, At, RejectedCodes, First, Catalog.WalkOrder, Catalog.CategoryOptions;
    assert after.actions == [] + [Analysis(0)] && after.impacts == [Impact(0, 0)];
    NoRowsAtAll();
    NothingTriedYet(after.actions, 0, []);
    ChoosesFromTheStart(after);
  }

  lemma NoRowsAtAll()
    ensures First([], IsLive).None? && First([], HasKey(KeyOf(Remedy(ReverseDuplicateCharge, 0, 0)))).None?
  {}

  /** A case whose first option is parked: its walk is over before it began. */
  lemma WalkCanBeParked()
    ensures exists s :: Reachable(s) && At(s, 0, 0, Catalog.WalkOrder(Catalog.CategoryOptions(DuplicateCharge, 0)))
              && ParkedFor(s.actions, 0, ReverseDuplicateCharge)
  {
    hide Inv, Reachable, Undecided, Untried, At, ParkedFor, ExecuteIfReady;
    FirstReversal();
    var s, before :| FirstPending(before, s);
    var rest := [Analysis(0)];
    assert s.actions == rest + [Reversal(0)] && s.impacts == [Impact(0, 0)];
    ReversalIsParked(s, 0, rest);
    var after := ExecuteIfReady(s, |rest|, REVIEW, []);
    RunReaches(s, |rest|, after);
    ParkedChooses(after);
  }

  lemma ParkedChooses(s: State)
    requires Inv(s) && s.flags == [] && Grounds(s) == Some(0) && s.hypotheses[0].category == DuplicateCharge
    requires s.actions == [Analysis(0)] + [Reversal(0).(status := NeedsManualReview)] && s.impacts == [Impact(0, 0)]
    ensures At(s, 0, 0, Catalog.WalkOrder(Catalog.CategoryOptions(DuplicateCharge, 0)))
    ensures ParkedFor(s.actions, 0, ReverseDuplicateCharge)
  {
    hide Inv, At, RejectedCodes, First, Catalog.WalkOrder, Catalog.CategoryOptions;
    ParkedRows(s.actions);
    ChoosesFromTheStart(s);
  }

  lemma ParkedRows(actions: seq<Action>)
    requires actions == [Analysis(0)] + [Reversal(0).(status := NeedsManualReview)]
    ensures First(actions, IsLive).None? && First(actions, LiveOrDoneRecovery).None? && RejectedCodes(actions) == {}
    ensures ParkedFor(actions, 0, ReverseDuplicateCharge)
  {
    hide First;
    assert actions[1].key == Key(ExecuteRecovery, OfOption(0, ReverseDuplicateCharge));
    assert forall i | 0 <= i < |actions| :: actions[i].status == Succeeded || actions[i].status == NeedsManualReview;
  }
}
