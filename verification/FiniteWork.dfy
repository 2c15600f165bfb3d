/**
 Finite work per hypothesis: with no outside ingestion and no regeneration, each kind of action is
 created a bounded number of times, whatever order open flags are listed in; only evidence requests
 depend on that order, and stay bounded by the MISSING flags.
 */
module FiniteWork {
  import opened Domain
  import opened Sequences
  import opened CaseState
  import opened NbaEngine
  import opened Executor
  import opened Orchestrator
  import opened ActionTable
  import opened ActionSafety
  import opened Runs
  import Catalog = RecoveryCatalog

  // ----- What a decision may still create -----

  /** The codes a category's walk ever offers. */
  function WalkCodes(category: Category): set<OptionCode> {
    set o | o in Catalog.WalkOrder(Catalog.CategoryOptions(category, 0)) :: o.code
  }

  function UsedCodes(actions: seq<Action>, h: nat): set<OptionCode> {
    set code: OptionCode | Catalog.IsCode(code) && First(actions, HasKey(Key(ExecuteRecovery, OfOption(h, code)))).Some?
  }

  /** How many actions of a kind deciding may still create for the current primary hypothesis. */
  function Budget(s: State, kind: ActionKind): nat {
    var grounds := Grounds(s);
    match kind
    case RequestEvidence =>
      var flag := First(s.flags, IsMissing);
      if grounds.None? then Free(s.actions, KeyOf(NoActiveHypothesis))
      else if flag.None? then 1
      else Free(s.actions, KeyOf(MissingEvidence(flag.value)))
    case RunAnalysis =>
      if grounds.None? then 0 else if First(s.impacts, ImpactFor(grounds.value)).None? then 1 else 0
    case ExecuteRecovery =>
      if grounds.None? then 0
      else Unused(s.hypotheses[grounds.value].category, grounds.value, s.actions)
    case _ =>
      if First(s.actions, OfKind(kind)).None? then 1 else 0
  }

  function Unused(category: Category, h: nat, actions: seq<Action>): nat {
    |WalkCodes(category) - UsedCodes(actions, h)|
  }

  function Free(actions: seq<Action>, key: Key): nat {
    if First(actions, HasKey(key)).None? then 1 else 0
  }

  function Limit(kind: ActionKind): nat {
    if kind == ExecuteRecovery then 4 else 1
  }

  lemma SameCodes(category: Category, exposure: nat)
    ensures forall o | o in Catalog.CategoryOptions(category, exposure) ::
              exists z :: z in Catalog.CategoryOptions(category, 0) && z.code == o.code
  {
    var x, y := Catalog.CategoryOptions(category, exposure), Catalog.CategoryOptions(category, 0);
    assert |x| == |y| <= 2 && forall i | 0 <= i < |x| :: x[i].code == y[i].code;
    forall o | o in x ensures exists z :: z in y && z.code == o.code {
      var i :| 0 <= i < |x| && x[i] == o;
      assert y[i] in y;
    }
  }

  lemma OffersAreWalked(category: Category, exposure: nat, rejected: set<OptionCode>)
    ensures var o := Catalog.BestOption(Catalog.Rank(category, exposure), rejected);
            o.Some? ==> o.value.code in WalkCodes(category)
  {
    var o := Catalog.BestOption(Catalog.Rank(category, exposure), rejected);
    if o.Some? {
      SameCodes(category, exposure);
      var walk := Catalog.WalkOrder(Catalog.CategoryOptions(category, 0));
      assert Catalog.EXCEPTIONAL in walk && Catalog.APOLOGY in walk;
      if o.value in Catalog.CategoryOptions(category, exposure) {
        var z :| z in Catalog.CategoryOptions(category, 0) && z.code == o.value.code;
        assert z in walk;
      }
    }
  }

  lemma FourCodes(category: Category)
    ensures |WalkCodes(category)| <= 4
  {
    var walk := Catalog.WalkOrder(Catalog.CategoryOptions(category, 0));
    Catalog.CategoriesAreAuthored(category, 0);
    CodesOfList(walk);
  }

  lemma {:induction false} CodesOfList(options: seq<Catalog.RecoveryOption>)
    ensures |(set o | o in options :: o.code)| <= |options|
  {
    if options != [] {
      var n := |options| - 1;
      CodesOfList(options[..n]);
      assert options == options[..n] + [options[n]];
      assert (set o | o in options :: o.code) == (set o | o in options[..n] :: o.code) + {options[n].code};
    }
  }

  lemma BudgetWithinLimit(s: State, kind: ActionKind)
    ensures Budget(s, kind) <= Limit(kind)
  {
    var grounds := Grounds(s);
    if kind == ExecuteRecovery && grounds.Some? {
      var all := WalkCodes(s.hypotheses[grounds.value].category);
      FourCodes(s.hypotheses[grounds.value].category);
      assert all - UsedCodes(s.actions, grounds.value) <= all;
      SmallerSet(all - UsedCodes(s.actions, grounds.value), all);
    }
  }

  lemma SmallerSet(a: set<OptionCode>, b: set<OptionCode>)
    requires a <= b
    ensures |a| <= |b|
    ensures a != b ==> |a| < |b|
  {
    assert b == a + (b - a);
    assert a != b ==> |b - a| > 0;
  }

  // ----- Steps that create nothing -----

  /** Same decisions, same assessments and hypotheses, at least the same flags. */
  ghost predicate SameWork(s: State, after: State) {
    && |after.actions| == |s.actions|
    && (forall a | 0 <= a < |s.actions| ::
      after.actions[a].key == s.actions[a].key && after.actions[a].kind == s.actions[a].kind)
    && after.impacts == s.impacts && after.hypotheses == s.hypotheses && after.primary == s.primary
    && s.flags <= after.flags
  }

  lemma SameKinds(before: seq<Action>, after: seq<Action>, kind: ActionKind)
    requires |before| == |after| && forall i | 0 <= i < |before| :: before[i].kind == after[i].kind
    ensures First(before, OfKind(kind)) == First(after, OfKind(kind))
    ensures Count(before, OfKind(kind)) == Count(after, OfKind(kind))
  {
    if before != [] {
      SameKinds(before[..|before| - 1], after[..|after| - 1], kind);
    }
  }

  lemma {:induction false} FirstOfMore<T>(rows: seq<T>, more: seq<T>, p: T -> bool)
    requires rows <= more && First(rows, p).Some?
    ensures First(more, p) == First(rows, p)
  {
    if |more| > |rows| {
      FirstOfMore(rows, more[..|more| - 1], p);
    } else {
      assert more == rows;
    }
  }

  lemma SameUnused(category: Category, h: nat, before: seq<Action>, after: seq<Action>)
    requires |before| == |after| && forall i | 0 <= i < |before| :: before[i].key == after[i].key
    ensures Unused(category, h, after) == Unused(category, h, before)
  {
    hide WalkCodes, First;
    SameKeys(before, after);
    assert UsedCodes(after, h) == UsedCodes(before, h);
  }

  lemma SameRequestBudget(s: State, after: State)
    requires SameWork(s, after)
    ensures Budget(after, RequestEvidence) <= Budget(s, RequestEvidence)
  {
    hide First;
    SameKeys(s.actions, after.actions);
    if First(s.flags, IsMissing).Some? {
      FirstOfMore(s.flags, after.flags, IsMissing);
    }
  }

  lemma SameWorkSameBudget(s: State, after: State, kind: ActionKind)
    requires SameWork(s, after)
    ensures Count(after.actions, OfKind(kind)) == Count(s.actions, OfKind(kind))
    ensures Budget(after, kind) <= Budget(s, kind)
  {
    hide First, Count, Unused, Free;
    SameKinds(s.actions, after.actions, kind);
    if kind == RequestEvidence {
      SameRequestBudget(s, after);
    } else if Grounds(s).Some? {
      SameUnused(s.hypotheses[Grounds(s).value].category, Grounds(s).value, s.actions, after.actions);
    }
  }

  // ----- Steps that decide -----

  /** A decision takes a row from the budget of its kind and leaves the other budgets alone. */
  ghost predicate Spends(s: State, after: State, x: Action, stable: bool) {
    && after.actions == s.actions + [x]
    && First(s.actions, HasKey(x.key)).None?
    && after.hypotheses == s.hypotheses && after.primary == s.primary && after.flags == s.flags
    && (x.kind == RunAnalysis ==> Budget(s, RunAnalysis) == 1 && Budget(after, RunAnalysis) == 0)
    && (x.kind != RunAnalysis ==> after.impacts == s.impacts)
    && (x.kind == EscalateItsm || x.kind == NotifyCustomer || x.kind == CloseCase ==>
      First(s.actions, OfKind(x.kind)).None?)
    && (x.kind == RequestEvidence && stable ==> RequestKey(s) == Some(x.key))
    && (x.kind == ExecuteRecovery ==>
          && Grounds(s).Some? && x.key.discriminator.OfOption? && x.key.kind == ExecuteRecovery
          && x.key.discriminator.hypothesis == Grounds(s).value
          && x.key.discriminator.code in WalkCodes(s.hypotheses[Grounds(s).value].category))
  }

  /** The key under which the engine would ask for evidence. */
  function RequestKey(s: State): Option<Key> {
    if Grounds(s).None? then Some(KeyOf(NoActiveHypothesis))
    else if First(s.flags, IsMissing).None? then None
    else Some(KeyOf(MissingEvidence(First(s.flags, IsMissing).value)))
  }

  lemma FirstAppended<T>(rows: seq<T>, x: T, p: T -> bool)
    ensures First(rows, p).Some? ==> First(rows + [x], p) == First(rows, p)
    ensures First(rows, p).None? ==> (First(rows + [x], p).None? <==> !p(x))
  {
    FirstSnoc(rows, x, p);
  }

  lemma SpendLowersBudget(s: State, after: State, x: Action, kind: ActionKind, stable: bool)
    requires Spends(s, after, x, stable) && (kind == RequestEvidence ==> stable)
    ensures Count(after.actions, OfKind(kind)) + Budget(after, kind) <= Count(s.actions, OfKind(kind)) + Budget(s, kind)
  {
    hide UsedCodes, WalkCodes, Unused, First;
    CountAppend(s.actions, x, OfKind(kind));
    FirstAppended(s.actions, x, OfKind(kind));
    if Grounds(s).Some? {
      SpendOnRecovery(s.hypotheses[Grounds(s).value].category, Grounds(s).value, s.actions, x);
    }
    if RequestKey(s).Some? {
      FirstAppended(s.actions, x, HasKey(RequestKey(s).value));
    }
  }

  lemma UsedGrows(actions: seq<Action>, x: Action, h: nat)
    ensures UsedCodes(actions, h) <= UsedCodes(actions + [x], h)
    ensures x.key.kind == ExecuteRecovery && x.key.discriminator.OfOption? && x.key.discriminator.hypothesis == h ==>
              x.key.discriminator.code in UsedCodes(actions + [x], h)
  {
    forall code: OptionCode
      ensures First(actions, HasKey(Key(ExecuteRecovery, OfOption(h, code)))).Some? ==>
                First(actions + [x], HasKey(Key(ExecuteRecovery, OfOption(h, code)))).Some?
      ensures x.key == Key(ExecuteRecovery, OfOption(h, code)) ==>
                First(actions + [x], HasKey(Key(ExecuteRecovery, OfOption(h, code)))).Some?
    {
      FirstAppended(actions, x, HasKey(Key(ExecuteRecovery, OfOption(h, code))));
    }
    forall code | code in UsedCodes(actions, h) ensures code in UsedCodes(actions + [x], h) {}
    if x.key.discriminator.OfOption? {
      assert Catalog.IsCode(x.key.discriminator.code);
    }
  }

  lemma LeftShrinks(all: set<OptionCode>, was: set<OptionCode>, now: set<OptionCode>, code: OptionCode)
    requires was <= now
    ensures |all - now| <= |all - was|
    ensures code in all && code !in was && code in now ==> |all - now| < |all - was|
  {
    SmallerSet(all - now, all - was);
    assert code in all && code !in was && code in now ==> code in all - was && code !in all - now;
  }

  lemma SpendOnRecovery(category: Category, h: nat, actions: seq<Action>, x: Action)
    ensures Unused(category, h, actions + [x]) <= Unused(category, h, actions)
    ensures First(actions, HasKey(x.key)).None? && x.key.kind == ExecuteRecovery && x.key.discriminator.OfOption?
            && x.key.discriminator.hypothesis == h && x.key.discriminator.code in WalkCodes(category) ==>
              Unused(category, h, actions + [x]) < Unused(category, h, actions)
  {
    UsedGrows(actions, x, h);
    var code := if x.key.discriminator.OfOption? then x.key.discriminator.code else ExceptionalRemedy;
    LeftShrinks(WalkCodes(category), UsedCodes(actions, h), UsedCodes(actions + [x], h), code);
  }

  lemma FirstIsListedFirst(flags: seq<Flag>)
    requires Where(flags, IsMissing) != []
    ensures First(flags, IsMissing) == Some(AnyOf(Where(flags, IsMissing), 0))
  {
    var ids := Where(flags, IsMissing);
    assert AnyOf(ids, 0) == ids[0] && ids[0] in ids;
    var first := First(flags, IsMissing);
    assert first.value in ids;
    var k :| 0 <= k < |ids| && ids[k] == first.value;
    assert ids[0] <= ids[k];
  }

  /** With flags in a stable order, an offer asks under the one key; it offers remedies of the category's walk. */
  ghost predicate Budgeted(s: State, p: Proposal, stable: bool) {
    && (KindOf(p.target) == RequestEvidence && stable ==> RequestKey(s) == Some(KeyOf(p.target)))
    && (p.target.Remedy? ==>
          Grounds(s) == Some(p.target.hypothesis)
            && p.target.code in WalkCodes(s.hypotheses[p.target.hypothesis].category))
  }

  lemma RemedyIsWalked(s: State, h: nat, exposure: nat)
    requires Grounds(s) == Some(h)
    ensures var c := ChooseRemedy(s, h, exposure); c.Offer? ==> Budgeted(s, c.proposal, true)
  {
    hide Catalog.BestOption, Catalog.Rank, WalkCodes, RejectedCodes;
    OffersAreWalked(s.hypotheses[h].category, exposure, RejectedCodes(s.actions));
  }

  lemma OfferIsBudgeted(s: State, scan: nat)
    ensures var c := Choose(s, scan); c.Offer? ==> Budgeted(s, c.proposal, scan == 0)
  {
    hide ChooseRemedy, WalkCodes, NeedsItsmCheck;
    var grounds := Grounds(s);
    if grounds.Some? {
      if Where(s.flags, IsMissing) != [] {
        FirstIsListedFirst(s.flags);
      }
      var impact := First(s.impacts, ImpactFor(grounds.value));
      if impact.Some? {
        RemedyIsWalked(s, grounds.value, s.impacts[impact.value].exposure);
      }
    }
  }

  lemma ProposeSpends(s: State, p: Proposal, scan: nat)
    requires Safe(s) && Warranted(s, Offer(p)) && Choose(s, scan) == Offer(p)
    ensures var after := Propose(s, p).0;
            if First(s.actions, HasKey(KeyOf(p.target))).Some? then SameWork(s, after)
            else Spends(s, after, NewAction(p), scan == 0)
  {
    OfferIsBudgeted(s, scan);
    var after := Propose(s, p).0;
    if First(s.actions, HasKey(KeyOf(p.target))).None? {
      assert after.actions == s.actions + [NewAction(p)];
    }
  }

  lemma AnalysisSpends(s: State, h: nat, exposure: nat)
    requires Safe(s) && Warranted(s, Analyse(h))
    ensures var after := Analysed(s, h, exposure).0;
            Spends(s, after, Action(RunAnalysis, ImpactOf(h), Succeeded, false, KeyOf(ImpactOf(h))), true)
  {
    hide Analysed, Safe;
    AnalysisIsFresh(s, h, exposure);
    FirstAppended(s.impacts, Impact(h, exposure), ImpactFor(h));
    UnanalysedIsFree(s, h);
  }

  lemma UnanalysedIsFree(s: State, h: nat)
    requires Safe(s) && First(s.impacts, ImpactFor(h)).None?
    ensures First(s.actions, HasKey(KeyOf(ImpactOf(h)))).None?
  {
    hide TableOk, ApprovalsOk, ExecutionsOk, RequestsOk, First;
  }

  lemma ClosureSpends(s: State, h: nat)
    requires Safe(s) && Warranted(s, Close(h))
    ensures var after := ClosedOut(s, h).0;
            Spends(s, after, Action(CloseCase, Closure(h), Succeeded, false, KeyOf(Closure(h))), true)
  {
    hide ApprovalsOk, ExecutionsOk, ImpactsOk;
    ClosureIsFresh(s, h);
    forall i | 0 <= i < |s.actions| ensures s.actions[i].key != KeyOf(Closure(h)) {
      assert RowOk(s.actions[i]);
    }
  }

  lemma DecideBudget(s: State, scan: nat, exposure: nat, kind: ActionKind)
    requires Safe(s) && (kind == RequestEvidence ==> scan == 0)
    ensures var after := Decide(s, scan, exposure).0;
            Count(after.actions, OfKind(kind)) + Budget(after, kind) <= Count(s.actions, OfKind(kind)) + Budget(s, kind)
  {
    hide Budget, Propose, Analysed, ClosedOut, Choose, Spends;
    var after := Decide(s, scan, exposure).0;
    if First(s.actions, IsLive).Some? {
      SameWorkSameBudget(s, after, kind);
    } else {
      var s1 := s.(reevaluate := false);
      ChoiceWarranted(s1, scan);
      SameWorkSameBudget(s, s1, kind);
      match Choose(s1, scan) {
        case Offer(p) =>
          ProposeSpends(s1, p, scan);
          if First(s1.actions, HasKey(KeyOf(p.target))).Some? {
            SameWorkSameBudget(s1, after, kind);
          } else {
            SpendLowersBudget(s1, after, NewAction(p), kind, scan == 0);
          }
        case Analyse(h) =>
          AnalysisSpends(s1, h, exposure);
          SpendLowersBudget(s1, after, Action(RunAnalysis, ImpactOf(h), Succeeded, false, KeyOf(ImpactOf(h))), kind,
            true);
        case Close(h) =>
          ClosureSpends(s1, h);
          SpendLowersBudget(s1, after, Action(CloseCase, Closure(h), Succeeded, false, KeyOf(Closure(h))), kind, true);
        case _ =>
          SameWorkSameBudget(s1, after, kind);
      }
    }
  }

  // ----- Every quiet run -----

  /** No outside evidence and no new hypotheses. */
  predicate Quiet(op: Op) {
    op.DecideNext? || op.Run? || op.Approve?
  }

  /** Flags are listed in insertion order, which only evidence requests depend on. */
  predicate Listed(op: Op, kind: ActionKind) {
    kind == RequestEvidence && op.DecideNext? ==> op.scan == 0
  }

  lemma RunIsSameWork(s: State, a: nat, c: Connector, raised: seq<Flag>)
    requires Safe(s)
    ensures SameWork(s, ExecuteIfReady(s, a, c, raised))
  {
    if a < |s.actions| && (s.actions[a].status == Proposed || s.actions[a].status == Approved) {
      ReadyRunsNow(s, a);
      ExecuteEffect(s, a, c, raised);
    }
  }

  lemma QuietStep(s: State, op: Op, kind: ActionKind)
    requires Inv(s) && Quiet(op) && Listed(op, kind)
    ensures Count(Apply(s, op).actions, OfKind(kind)) + Budget(Apply(s, op), kind)
            <= Count(s.actions, OfKind(kind)) + Budget(s, kind)
  {
    hide Budget, Decide, ExecuteIfReady, SameWork, Count;
    match op
    case DecideNext(scan, exposure) => DecideBudget(s, scan, exposure, kind);
    case Run(a, c, raised) =>
      RunIsSameWork(s, a, c, raised);
      SameWorkSameBudget(s, Apply(s, op), kind);
    case Approve(_, _, _) =>
      ApproveIsSameWork(s, op);
      SameWorkSameBudget(s, Apply(s, op), kind);
  }

  lemma ApproveIsSameWork(s: State, op: Op)
    requires op.Approve?
    ensures SameWork(s, Apply(s, op))
  {}

  lemma {:induction false} QuietRun(s: State, ops: seq<Op>, kind: ActionKind)
    requires Inv(s) && forall op | op in ops :: Quiet(op) && Listed(op, kind)
    ensures Count(Play(s, ops).actions, OfKind(kind)) + Budget(Play(s, ops), kind)
            <= Count(s.actions, OfKind(kind)) + Budget(s, kind)
  {
    if ops != [] {
      var n := |ops| - 1;
      assert forall op | op in ops[..n] :: op in ops;
      QuietRun(s, ops[..n], kind);
      PlayKeeps(s, ops[..n]);
      assert ops[n] in ops;
      QuietStep(Play(s, ops[..n]), ops[n], kind);
    }
  }

  /**
   From any reachable case, however advances, executions and approvals interleave and whatever
   connectors answer: at most one more analysis, one escalation, four recoveries, one notice and one
   closure until the next delivery or regeneration; and one evidence request, if open flags are
   listed in insertion order.
   */
  lemma FiniteWorkPerHypothesis(
      caseId: nat, customer: nat, prior: seq<Delivery>, past: seq<Op>, ops: seq<Op>, kind: ActionKind)
    requires forall op | op in ops :: Quiet(op) && Listed(op, kind)
    ensures Count(Case(caseId, customer, prior, past + ops).actions, OfKind(kind))
            <= Count(Case(caseId, customer, prior, past).actions, OfKind(kind)) + Limit(kind)
  {
    var s := Case(caseId, customer, prior, past);
    CaseHolds(caseId, customer, prior, past);
    PlayConcat(Opened(caseId, customer, prior), past, ops);
    QuietRun(s, ops, kind);
    BudgetWithinLimit(s, kind);
  }

  // ----- Evidence requests, in any order -----

  /** What an evidence request may be about: a flag, or one past the last for the general request. */
  function Subject(actions: seq<Action>, flags: nat, a: nat): nat
    requires a < |actions|
  {
    if actions[a].target.MissingEvidence? then actions[a].target.flag else flags
  }

  function Subjects(actions: seq<Action>, flags: nat, ids: seq<nat>): (r: seq<nat>)
    requires forall k | 0 <= k < |ids| :: ids[k] < |actions|
    ensures |r| == |ids| && forall k | 0 <= k < |ids| :: r[k] == Subject(actions, flags, ids[k])
  {
    seq(|ids|, k requires 0 <= k < |ids| => Subject(actions, flags, ids[k]))
  }

  /** Distinct evidence requests are about distinct MISSING flags, but for one general request. */
  lemma RequestsWithinFlags(s: State, ids: seq<nat>)
    requires Safe(s) && NoDuplicates(ids)
    requires forall k | 0 <= k < |ids| :: ids[k] < |s.actions| && s.actions[ids[k]].kind == RequestEvidence
    ensures |ids| <= |Where(s.flags, IsMissing)| + 1
    ensures (forall k | 0 <= k < |ids| :: s.actions[ids[k]].target.MissingEvidence?) ==>
            |ids| <= |Where(s.flags, IsMissing)|
  {
    hide Safe, Where;
    var n := |s.flags|;
    var subjects, missing := Subjects(s.actions, n, ids), Where(s.flags, IsMissing);
    forall k, l | 0 <= k < l < |ids| ensures subjects[k] != subjects[l] {
      OneRequestEach(s, ids[k], ids[l]);
    }
    DistinctLength(subjects);
    forall k | 0 <= k < |ids|
      ensures subjects[k] in missing || (subjects[k] == n && !s.actions[ids[k]].target.MissingEvidence?) {
      SubjectIsMissing(s, ids[k]);
    }
    assert Elements(subjects) <= Elements(missing) + {n};
    assert (forall k | 0 <= k < |ids| :: s.actions[ids[k]].target.MissingEvidence?) ==> n !in subjects;
    ListedAsMany(missing);
    NoMore(Elements(subjects), Elements(missing), n);
  }

  lemma SubjectIsMissing(s: State, a: nat)
    requires Safe(s) && a < |s.actions|
    ensures s.actions[a].target.MissingEvidence? ==> Subject(s.actions, |s.flags|, a) in Where(s.flags, IsMissing)
    ensures !s.actions[a].target.MissingEvidence? ==> Subject(s.actions, |s.flags|, a) == |s.flags|
    ensures |s.flags| !in Where(s.flags, IsMissing)
  {
    hide TableOk, ApprovalsOk, ExecutionsOk, ImpactsOk;
  }

  lemma OneRequestEach(s: State, a: nat, b: nat)
    requires Safe(s) && a < |s.actions| && b < |s.actions| && a != b
    requires s.actions[a].kind == RequestEvidence && s.actions[b].kind == RequestEvidence
    ensures Subject(s.actions, |s.flags|, a) != Subject(s.actions, |s.flags|, b)
  {
    hide ApprovalsOk, ExecutionsOk, ImpactsOk, CausesOk;
    assert RowOk(s.actions[a]) && RowOk(s.actions[b]);
    assert a < b ==> PairOk(s.actions[a], s.actions[b]);
    assert b < a ==> PairOk(s.actions[b], s.actions[a]);
  }

  lemma ListedAsMany(ids: seq<nat>)
    requires forall k, l | 0 <= k < l < |ids| :: ids[k] < ids[l]
    ensures |Elements(ids)| == |ids|
  {
    DistinctLength(ids);
  }

  lemma NoMore(some: set<nat>, all: set<nat>, n: nat)
    requires some <= all + {n}
    ensures |some| <= |all| + 1
    ensures n !in some ==> |some| <= |all|
  {
    var known := some - {n};
    assert known <= all && some <= known + {n};
    assert all == known + (all - known);
    assert n in some ==> some == known + {n};
    assert n !in some ==> some == known;
  }

  /** In every reachable case, requests outnumber the MISSING flags by one at most, however flags are listed. */
  lemma RequestsAreBounded(caseId: nat, customer: nat, prior: seq<Delivery>, ops: seq<Op>)
    ensures var s := Case(caseId, customer, prior, ops);
            |Where(s.actions, OfKind(RequestEvidence))| <= |Where(s.flags, IsMissing)| + 1
  {
    hide Safe, Play;
    CaseHolds(caseId, customer, prior, ops);
    var s := Case(caseId, customer, prior, ops);
    var ids := Where(s.actions, OfKind(RequestEvidence));
    forall k | 0 <= k < |ids| ensures ids[k] in ids {}
    RequestsWithinFlags(s, ids);
  }
}
