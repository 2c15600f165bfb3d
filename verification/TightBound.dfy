/** The least number of gaps that lets the drive loop run into its bound does so. */
module TightBound {
  import opened Domain
  import opened Sequences
  import opened CaseState
  import opened Confidence
  import opened Uncertainty
  import opened HypothesisEngine
  import opened NbaEngine
  import opened Executor
  import opened Orchestrator
  import opened ActionSafety
  import opened Runs
  import opened HypothesisInvariants
  import opened CaseCycle
  import opened WholeAdvances
  import opened Witnesses
  import Catalog = RecoveryCatalog

  // ----- The four phases before any flag is raised -----

  const CHECK := Proposal(SystemicCheck(0), false, Supervisor, Some(Investigating), None)
  const REPLACEMENT := Proposal(Remedy(ReplacementOrder, 0, 0), false, Supervisor, Some(ActionInProgress),
    Some(RecoveryOptionsRanked))
  const NOTICE := Proposal(RecoveryNotice(2), false, Supervisor, Some(PendingCustomerUpdate), None)

  function Met(p: Proposal): Action {
    NewAction(p).(status := Succeeded)
  }

  /** The first phases taken, in order. */
  function Taken(n: nat): seq<Action>
    requires n <= 3
  {
    [Analysis(0), Met(CHECK), Met(REPLACEMENT)][..n]
  }

  /** A weakly supported disputed delivery, seven orders, no flags, and the first n phases taken. */
  ghost predicate Calm(s: State, n: nat) {
    && Inv(s) && n <= 3 && s.customer == 0 && s.evidence == OrderRows(7) && s.flags == []
    && Grounds(s) == Some(0)
    && s.hypotheses[0].category == DeliveredButDisputed && s.hypotheses[0].confidence < ACTION_THRESHOLD
    && s.actions == Taken(n) && s.impacts == (if n == 0 then [] else [Impact(0, 0)])
  }

  const PLAIN := Turn(0, 0, HELPFUL, [])

  lemma NothingLive(n: nat)
    requires n <= 3
    ensures First(Taken(n), IsLive).None?
  {
    assert forall i | 0 <= i < n :: Taken(n)[i].status == Succeeded;
  }

  lemma AnalysisIsChosen(s: State)
    requires Calm(s, 0)
    ensures First(s.actions, IsLive).None?
    ensures Choose(s.(reevaluate := false), 0) == Analyse(0)
  {
    hide Inv, ChooseRemedy, NeedsItsmCheck;
    assert Where(s.flags, IsMissing) == [];
  }

  lemma AnalysisIsDecided(s: State, s1: State)
    requires Inv(s) && First(s.actions, IsLive).None? && s.impacts == []
    requires Choose(s.(reevaluate := false), 0) == Analyse(0) && s1 == Decide(s, 0, 0).0
    ensures Decide(s, 0, 0).1 == Some(|s.actions|)
    ensures s1.actions == s.actions + [Analysis(0)] && s1.impacts == [] + [Impact(0, 0)]
  {
    hide Analysed, StoreOk, Choose;
    var calm := s.(reevaluate := false);
    SameSafe(s, calm);
    AnalysisIsFresh(calm, 0, 0);
    DecideFresh(s, 0, 0);
  }

  lemma AnalysisComesFirst(s: State)
    requires Calm(s, 0)
    ensures var r := Advance(s, PLAIN); r.1 == Some(0) && Calm(r.0, 1)
  {
    hide Inv, Decide, Choose;
    var s1 := Decide(s, 0, 0).0;
    AnalysisIsChosen(s);
    AnalysisIsDecided(s, s1);
    AdvanceFrom(s, PLAIN, s1, Some(0));
    DecisionKeeps(s, 0, 0, s1);
    assert [] + [Analysis(0)] == Taken(1) && [] + [Impact(0, 0)] == [Impact(0, 0)];
  }

  /** What the next decision is, phase by phase. */
  function Next(n: nat): Proposal
    requires 1 <= n <= 3
  {
    if n == 1 then CHECK else if n == 2 then REPLACEMENT else NOTICE
  }

  lemma FirstRemedyIsReplacement()
    ensures Catalog.BestOption(Catalog.Rank(DeliveredButDisputed, 0), {}) ==
            Some(Catalog.RecoveryOption(ReplacementOrder, 0, false, Some(Supervisor)))
  {
    Catalog.CategoriesAreAuthored(DeliveredButDisputed, 0);
    Catalog.FirstOffer(Catalog.CategoryOptions(DeliveredButDisputed, 0));
  }

  lemma OrdersAreNoIncidents(n: nat)
    ensures First(OrderRows(n), ItsmEvidenceFor(0)).None?
  {}

  lemma Assessed()
    ensures First([Impact(0, 0)], ImpactFor(0)) == Some(0)
  {
    assert [Impact(0, 0)][..0] == [];
  }

  lemma NextIsChosen(s: State, n: nat)
    requires Calm(s, n) && 1 <= n <= 3
    ensures Choose(s.(reevaluate := false), 0) == Offer(Next(n))
    ensures First(s.actions, HasKey(KeyOf(Next(n).target))).None?
  {
    hide Inv, Catalog.BestOption, Catalog.Rank, First;
    assert Where(s.flags, IsMissing) == [];
    Assessed();
    OrdersAreNoIncidents(7);
    FirstRemedyIsReplacement();
    RowsSoFar(n);
  }

  lemma RowsSoFar(n: nat)
    requires 1 <= n <= 3
    ensures First(Taken(n), OfKind(EscalateItsm)).None? <==> n == 1
    ensures First(Taken(n), LiveOrDoneRecovery).None? <==> n <= 2
    ensures First(Taken(n), Done(ExecuteRecovery)) == (if n == 3 then Some(2) else None)
    ensures First(Taken(n), OfKind(NotifyCustomer)).None?
    ensures First(Taken(n), HasKey(KeyOf(Next(n).target))).None?
    ensures RejectedCodes(Taken(n)) == {}
  {
    hide First;
    var rows := Taken(n);
    assert rows[0] == Analysis(0);
    assert n >= 2 ==> rows[1] == Met(CHECK);
    assert n == 3 ==> rows[2] == Met(REPLACEMENT);
    forall i | 0 <= i < n ensures rows[i].status == Succeeded && rows[i].kind != NotifyCustomer {}
    assert n >= 2 ==> OfKind(EscalateItsm)(rows[1]);
    assert n == 3 ==> Done(ExecuteRecovery)(rows[2]) && LiveOrDoneRecovery(rows[2]);
    assert RejectedCodes(rows) == {};
  }

  /** An offer that nothing stands against is inserted and still to be run. */
  lemma NextIsProposed(s: State, n: nat, s1: State)
    requires Calm(s, n) && 1 <= n <= 3 && s1 == Decide(s, 0, 0).0
    ensures Decide(s, 0, 0).1 == Some(n)
    ensures s1.actions == s.actions + [NewAction(Next(n))] && s1.impacts == s.impacts
    ensures SameHypotheses(s, s1) && s1.flags == s.flags && Inv(s1)
  {
    hide Inv, Choose, Decide;
    NothingLive(n);
    NextIsChosen(s, n);
    OfferIsInserted(s, 0, 0, Next(n));
    DecisionKeeps(s, 0, 0, s1);
  }

  lemma NextIsTaken(s: State, n: nat)
    requires Calm(s, n) && 1 <= n <= 2
    ensures var r := Advance(s, PLAIN); r.1 == Some(n) && Calm(r.0, n + 1)
  {
    hide Inv, Decide, ExecuteIfReady;
    var s1 := Decide(s, 0, 0).0;
    NextIsProposed(s, n, s1);
    AdvanceFrom(s, PLAIN, s1, Some(n));
    RequestIsMet(s1, n);
    assert (Taken(n) + [NewAction(Next(n))])[n := Met(Next(n))] == Taken(n + 1);
  }

  // ----- The notice brings in evidence, and with it eight gaps -----

  /** The connector answers at once, and surfaces one more order. */
  const SURFACES := Connector([Answered(true, false, [OrderOf(7)])])

  const LAST := Turn(0, 0, SURFACES, Gaps(8))

  lemma SurfacedEvidence(s: State)
    requires s.customer == 0 && s.evidence == OrderRows(7) && s.flags == []
    ensures var after := AbsorbEvidence(s, [OrderOf(7)], Gaps(8));
            after.evidence == OrderRows(8) && after.flags == Gaps(8)
  {
    var filed := Filed(0, [OrderOf(7)]);
    assert [OrderOf(7)][..0] == [];
    assert filed == [OrderOf(7)] && filed[..0] == [];
    assert IngestAll(s, []) == s;
    OrderArrives(7);
    assert IngestAll(s, filed).evidence == OrderRows(8);
    assert [] + Gaps(8) == Gaps(8);
  }

  lemma SurfacingSucceeds()
    ensures Made(SURFACES, 1) == 1 && On(SURFACES, 1) == Answered(true, false, [OrderOf(7)])
            && FinalStatus(SURFACES) == Succeeded
  {}

  lemma NoticeIsMet(s: State)
    requires Inv(s) && s.actions == Taken(3) + [NewAction(NOTICE)] && s.customer == 0 && s.evidence == OrderRows(7)
             && s.flags == []
    ensures var after := ExecuteIfReady(s, 3, SURFACES, Gaps(8));
            && after.actions == Taken(3) + [Met(NOTICE)]
            && after.hypotheses == s.hypotheses && after.primary == s.primary && after.customer == 0
            && after.flags == Gaps(8) && after.evidence == OrderRows(8) && Inv(after)
  {
    hide Inv, Execute;
    assert s.actions[3] == NewAction(NOTICE);
    RunKeeps(s, 3, SURFACES, Gaps(8));
    NoticeIsReady(s);
    NoticeMoves(s);
    NoticeSurfaces(s);
  }

  lemma NoticeIsReady(s: State)
    requires Inv(s) && |s.actions| == 4 && s.actions[3].status == Proposed
    ensures First(s.executions, SuccessOf(3)).None?
  {
    hide Led, StoreOk;
    ReadyRunsNow(s, 3);
  }

  lemma NoticeMoves(s: State)
    requires s.actions == Taken(3) + [NewAction(NOTICE)] && First(s.executions, SuccessOf(3)).None?
    ensures var after := Execute(s, 3, SURFACES, Gaps(8));
            && after.actions == Taken(3) + [Met(NOTICE)]
            && after.hypotheses == s.hypotheses && after.primary == s.primary && after.customer == s.customer
  {
    hide Execute, First;
    ExecuteEffect(s, 3, SURFACES, Gaps(8));
    SurfacingSucceeds();
    assert (Taken(3) + [NewAction(NOTICE)])[3 := Met(NOTICE)] == Taken(3) + [Met(NOTICE)];
  }

  lemma NoticeSurfaces(s: State)
    requires |s.actions| == 4 && First(s.executions, SuccessOf(3)).None?
    requires s.customer == 0 && s.evidence == OrderRows(7) && s.flags == []
    ensures var after := Execute(s, 3, SURFACES, Gaps(8)); after.flags == Gaps(8) && after.evidence == OrderRows(8)
  {
    hide Attempts, AbsorbEvidence, AdvanceStage, First;
    SurfacingSucceeds();
    SurfacedEvidence(Attempts(Started(s, 3), 3, SURFACES, 1));
  }

  lemma NoticeIsTaken(s: State)
    requires Calm(s, 3)
    ensures var r := Advance(s, LAST);
            r.1 == Some(3) && r.0.actions == Taken(3) + [Met(NOTICE)] && Thirsty(r.0, 0)
            && r.0.flags == Gaps(8) && r.0.evidence == OrderRows(8)
  {
    hide Inv, Decide, ExecuteIfReady;
    var s1 := Decide(s, 0, 0).0;
    NextIsProposed(s, 3, s1);
    AdvanceFrom(s, LAST, s1, Some(3));
    NoticeIsMet(s1);
    NothingAskedYet();
  }

  lemma NothingAskedYet()
    ensures var rows := Taken(3) + [Met(NOTICE)];
            First(rows, IsLive).None? && forall flag: nat :: !Asked(rows, flag)
  {
    var rows := Taken(3) + [Met(NOTICE)];
    assert forall i | 0 <= i < 4 ::
      rows[i].status == Succeeded && rows[i].kind != RequestEvidence && rows[i].key.kind == rows[i].kind;
  }

  // ----- The drive -----

  /** One more step in front of a drive that is cut off. */
  lemma StepBefore(s: State, turns: seq<Turn>, before: seq<nat>, r: (State, Option<nat>), a: nat)
    requires turns != [] && r == Advance(s, turns[0]) && r.1 == Some(a) && a !in before
    requires a < |r.0.actions| && r.0.actions[a].status == Succeeded
    requires Driven(r.0, turns[1..], before + [a]).stop == Capped
    ensures var d := Driven(s, turns, before);
            d.stop == Capped && d.state == Driven(r.0, turns[1..], before + [a]).state
  {
    hide Advance;
    DrivenJoins(s, turns, before, r);
  }

  function AskTurns(): seq<Turn> {
    seq(8, i requires 0 <= i => AskFor(i))
  }

  /** From n phases on. */
  function TurnsFrom(n: nat): seq<Turn>
    requires n <= 3
  {
    [PLAIN, PLAIN, PLAIN][n..] + [LAST] + AskTurns()
  }

  lemma OneTurnFewer(n: nat)
    requires n <= 2
    ensures TurnsFrom(n) != [] && TurnsFrom(n)[0] == PLAIN && TurnsFrom(n)[1..] == TurnsFrom(n + 1)
  {
    hide AskTurns;
  }

  function TakenBefore(n: nat): seq<nat>
    requires n <= 4
  {
    [0, 1, 2, 3][..n]
  }

  lemma OneMoreTakenBefore(n: nat)
    requires n <= 3
    ensures TakenBefore(n) + [n] == TakenBefore(n + 1) && n !in TakenBefore(n)
  {
    var all: seq<nat> := [0, 1, 2, 3];
    assert all[n] == n && all[..n + 1] == all[..n] + [all[n]];
  }

  /** Cut off with eight gaps open, every one of them detected. */
  ghost predicate CutOff(d: Drive) {
    d.stop == Capped && d.state.flags == Gaps(8) && d.state.evidence == OrderRows(8)
  }

  lemma CutOffFrom3(s: State)
    requires Calm(s, 3)
    ensures CutOff(Driven(s, TurnsFrom(3), TakenBefore(3)))
  {
    hide Calm, Thirsty, Advance, Driven;
    var r := Advance(s, LAST);
    NoticeIsTaken(s);
    assert TurnsFrom(3)[0] == LAST && TurnsFrom(3)[1..] == AskTurns();
    OneMoreTakenBefore(3);
    assert |r.0.actions| == 4;
    ThirstyDrive(r.0, 0, AskTurns(), TakenBefore(4));
    StepBefore(s, TurnsFrom(3), TakenBefore(3), r, 3);
  }

  lemma {:induction false} CutOffFrom(s: State, n: nat)
    requires Calm(s, n) && n <= 2
    ensures CutOff(Driven(s, TurnsFrom(n), TakenBefore(n)))
    decreases 3 - n
  {
    hide Calm, Advance, Driven, CutOff, TurnsFrom, TakenBefore, Taken, OrderRows, Gaps;
    var r := Advance(s, PLAIN);
    if n == 0 {
      AnalysisComesFirst(s);
    } else {
      NextIsTaken(s, n);
    }
    OneTurnFewer(n);
    OneMoreTakenBefore(n);
    if n == 2 {
      CutOffFrom3(r.0);
    } else {
      CutOffFrom(r.0, n + 1);
    }
    IsCapped(Driven(r.0, TurnsFrom(n + 1), TakenBefore(n + 1)));
    TookRow(r.0, n);
    StepBefore(s, TurnsFrom(n), TakenBefore(n), r, n);
    SameEnd(Driven(r.0, TurnsFrom(n + 1), TakenBefore(n + 1)), Driven(s, TurnsFrom(n), TakenBefore(n)));
  }

  lemma IsCapped(d: Drive)
    requires CutOff(d)
    ensures d.stop == Capped
  {}

  lemma TookRow(s: State, n: nat)
    requires n <= 2 && Calm(s, n + 1)
    ensures n < |s.actions| && s.actions[n].status == Succeeded
  {
    hide Inv, First;
  }

  lemma SameEnd(d: Drive, e: Drive)
    requires CutOff(d) && e.stop == Capped && e.state == d.state
    ensures CutOff(e)
  {}

  lemma CalmIsReachable()
    ensures exists s :: Undecided(s) && Calm(s, 0)
  {
    hide Inv, Reachable, Undecided, Generated, Reconciled, Suspected;
    OrdersReach(7);
    var s :| Early(s, [], OrderRows(7)) && s.hypotheses == [];
    OrderSuspicion(s, [], OrderRows(7), DeliveredButDisputed);
    StartsCalm(Generated(s, Suspicion(DeliveredButDisputed)));
  }

  lemma StartsCalm(s: State)
    requires Early(s, [], OrderRows(7)) && Grounds(s) == Some(0)
    requires s.hypotheses[0] == Suspected(OrderRows(7), DeliveredButDisputed)
    ensures Calm(s, 0)
  {
    hide Inv, Reachable;
    assert Ratio(10, 0) == 5_000;
  }

  /** Some run made of whole advances ends here. */
  ghost predicate WholeReaches(s: State) {
    exists caseId, customer, prior, ops ::
      s == Case(caseId, customer, prior, ops) && Whole(Opened(caseId, customer, prior), ops)
  }

  lemma {:induction false} StandaloneIsWhole(s: State, ops: seq<Op>)
    requires forall op | op in ops :: Standalone(op)
    ensures Whole(s, ops)
  {
    if ops != [] {
      var n := |ops| - 1;
      assert ops == ops[..n] + [ops[n]];
      StandaloneIsWhole(s, ops[..n]);
      OneMore(s, ops[..n], ops[n]);
    }
  }

  lemma UndecidedIsWhole(s: State)
    requires Undecided(s)
    ensures WholeReaches(s)
  {
    hide Case, Opened, Whole;
    var caseId, customer, prior, ops :|
      s == Case(caseId, customer, prior, ops) && forall op | op in ops :: Standalone(op);
    StandaloneIsWhole(Opened(caseId, customer, prior), ops);
  }

  lemma NothingYet(s: State)
    requires Calm(s, 0)
    ensures s.actions == [] && s.flags == []
  {
    hide Inv;
  }

  /**
   Eight gaps are enough: in a case reached by whole advances that begins with no flag and nothing in
   flight, driving is cut off by the bound with eight MISSING flags open, all of them due. Fewer
   never are.
   */
  lemma EightGapsReachTheBound()
    ensures exists s, turns :: WholeReaches(s) && s.actions == [] && s.flags == [] && |turns| == MAX_AUTO_STEPS
              && Driven(s, turns, []).stop == Capped
              && |Where(Driven(s, turns, []).state.flags, IsMissing)| == 8
              && Detects(Driven(s, turns, []).state.evidence, 0, LATER, {}, Driven(s, turns, []).state.flags)
  {
    hide WholeReaches, Undecided, Driven, Detects, Calm, Where;
    CalmIsReachable();
    var s :| Undecided(s) && Calm(s, 0);
    UndecidedIsWhole(s);
    NothingYet(s);
    CutOffFrom(s, 0);
    WhereAll(Gaps(8));
    GapsAreDetected(8);
    assert TakenBefore(0) == [] && |TurnsFrom(0)| == MAX_AUTO_STEPS;
  }
}
