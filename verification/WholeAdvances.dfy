/** Runs in which deciding and carrying out are one call, as the orchestrator makes them, and what they leave. */
module WholeAdvances {
  import opened Domain
  import opened Sequences
  import opened CaseState
  import opened NbaEngine
  import opened Executor
  import opened Orchestrator
  import opened ActionTable
  import opened ActionSafety
  import opened HypothesisInvariants
  import opened Tracing
  import opened Runs
  import opened CaseCycle
  import opened OpenGaps

  /** The operation is neither half of an advance. */
  predicate Standalone(op: Op) {
    !op.DecideNext? && !op.Run?
  }

  /** From s, every decision was at once followed by running what it answered. */
  ghost predicate Whole(s: State, ops: seq<Op>)
    decreases |ops|
  {
    || ops == []
    || (Standalone(ops[|ops| - 1]) && Whole(s, ops[..|ops| - 1]))
    || (exists k: nat, t :: k < |ops| && ops[k..] == AdvanceOps(Play(s, ops[..k]), t) && Whole(s, ops[..k]))
  }

  lemma OneMore(s: State, ops: seq<Op>, op: Op)
    requires Whole(s, ops) && Standalone(op)
    ensures Whole(s, ops + [op])
  {
    assert (ops + [op])[..|ops|] == ops;
  }

  lemma OneMoreAdvance(s: State, ops: seq<Op>, t: Turn)
    requires Whole(s, ops)
    ensures Whole(s, ops + AdvanceOps(Play(s, ops), t))
  {
    hide Play, Decide;
    var more := AdvanceOps(Play(s, ops), t);
    var all := ops + more;
    assert all[..|ops|] == ops && all[|ops|..] == more;
  }

  // ----- Nothing is left proposed -----

  ghost predicate NothingProposed(s: State) {
    forall i | 0 <= i < |s.actions| :: s.actions[i].status != Proposed
  }

  /** What a decision answers is the one row it added, if it added one. */
  lemma DecisionAnswersItsRow(s: State, scan: nat, exposure: nat)
    requires Safe(s)
    ensures var (s1, a) := Decide(s, scan, exposure);
            || s1.actions == s.actions
            || (a == Some(|s.actions|) && |s1.actions| == |s.actions| + 1 && s.actions <= s1.actions)
  {
    hide Safe, Choose, Analysed, ClosedOut;
    if First(s.actions, IsLive).None? {
      var calm := s.(reevaluate := false);
      SameSafe(s, calm);
      DecideFresh(s, scan, exposure);
      ChoiceWarranted(calm, scan);
      EnactmentAnswersItsRow(calm, Choose(calm, scan), exposure);
    }
  }

  lemma EnactmentAnswersItsRow(s: State, choice: Choice, exposure: nat)
    requires Safe(s) && Warranted(s, choice)
    ensures var (s1, a) := Enact(s, choice, exposure);
            || s1.actions == s.actions
            || (a == Some(|s.actions|) && |s1.actions| == |s.actions| + 1 && s.actions <= s1.actions)
  {
    hide Analysed, ClosedOut, ApprovalsOk, ExecutionsOk;
    match choice
    case Analyse(h) => AnalysisIsFresh(s, h, exposure);
    case Close(h) => ClosureIsFresh(s, h);
    case _ =>
  }

  lemma RunLeavesNoneProposed(s: State, a: nat, c: Connector, raised: seq<Flag>)
    requires Safe(s) && a < |s.actions|
    requires forall i | 0 <= i < |s.actions| && i != a :: s.actions[i].status != Proposed
    ensures NothingProposed(ExecuteIfReady(s, a, c, raised))
  {
    hide Execute, FinalStatus;
    if s.actions[a].status == Proposed || s.actions[a].status == Approved {
      ReadyRunsNow(s, a);
      ExecuteEffect(s, a, c, raised);
      FinalIsNotProposed(c);
    }
  }

  lemma FinalIsNotProposed(c: Connector)
    ensures FinalStatus(c) != Proposed
  {}

  lemma AdvanceLeavesNoneProposed(s: State, t: Turn)
    requires Inv(s) && NothingProposed(s)
    ensures NothingProposed(Advance(s, t).0)
  {
    hide Decide, ExecuteIfReady, Safe, Traced, Led, StoreOk;
    var (s1, a) := Decide(s, t.scan, t.exposure);
    AdvanceFrom(s, t, s1, a);
    DecisionAnswersItsRow(s, t.scan, t.exposure);
    DecideKeepsSafe(s, t.scan, t.exposure);
    if a.Some? {
      AnswerExists(s, t);
      RunLeavesNoneProposed(s1, a.value, t.connector, t.raised);
    }
  }

  lemma AnswerExists(s: State, t: Turn)
    ensures var (s1, a) := Decide(s, t.scan, t.exposure); a.Some? ==> a.value < |s1.actions|
  {
    hide Decide, ExecuteIfReady;
    var (s1, a) := Decide(s, t.scan, t.exposure);
    AdvanceFrom(s, t, s1, a);
  }

  lemma StandaloneLeavesNoneProposed(s: State, op: Op)
    requires NothingProposed(s) && Standalone(op)
    ensures NothingProposed(Apply(s, op))
  {
    match op
    case Regenerate(specs) => GeneratedFrame(s, specs);
    case _ =>
  }

  lemma {:induction false} WholeLeavesNoneProposed(s: State, ops: seq<Op>)
    requires Inv(s) && NothingProposed(s) && Whole(s, ops)
    ensures NothingProposed(Play(s, ops))
    decreases |ops|
  {
    hide Inv, NothingProposed, Apply, Decide, Advance, AdvanceOps;
    if ops != [] {
      var n := |ops| - 1;
      if Standalone(ops[n]) && Whole(s, ops[..n]) {
        WholeLeavesNoneProposed(s, ops[..n]);
        StandaloneLeavesNoneProposed(Play(s, ops[..n]), ops[n]);
      } else {
        var k: nat, t :| k < |ops| && ops[k..] == AdvanceOps(Play(s, ops[..k]), t) && Whole(s, ops[..k]);
        WholeLeavesNoneProposed(s, ops[..k]);
        EndingInAdvance(s, ops, k, t);
      }
    }
  }

  lemma EndingInAdvance(s: State, ops: seq<Op>, k: nat, t: Turn)
    requires Inv(s) && k <= |ops| && ops[k..] == AdvanceOps(Play(s, ops[..k]), t)
    requires NothingProposed(Play(s, ops[..k]))
    ensures NothingProposed(Play(s, ops))
  {
    hide Inv, NothingProposed, Apply, Decide, Advance, AdvanceOps, Play;
    var before := Play(s, ops[..k]);
    PlayKeeps(s, ops[..k]);
    PlayConcat(s, ops[..k], ops[k..]);
    assert ops == ops[..k] + ops[k..];
    AdvanceIsPlayed(before, t);
    AdvanceLeavesNoneProposed(before, t);
  }

  lemma OpenedLeavesNoneProposed(caseId: nat, customer: nat, prior: seq<Delivery>)
    ensures NothingProposed(Opened(caseId, customer, prior))
  {}

  /** After any run made of whole advances no action is left merely proposed: what is live waits for a person. */
  lemma WholeRunsLeaveNothingProposed(caseId: nat, customer: nat, prior: seq<Delivery>, ops: seq<Op>)
    requires Whole(Opened(caseId, customer, prior), ops)
    ensures NothingProposed(Case(caseId, customer, prior, ops))
  {
    hide Opened, Play, Inv, NothingProposed;
    OpenedHolds(caseId, customer, prior);
    OpenedLeavesNoneProposed(caseId, customer, prior);
    WholeLeavesNoneProposed(Opened(caseId, customer, prior), ops);
  }

  lemma NoGeneralPending(s: State)
    requires Safe(s) && NothingProposed(s)
    ensures !GeneralPending(s.actions)
  {
    hide ApprovalsOk, ExecutionsOk, ImpactsOk, RequestsOk, PairOk, CausesOk;
    var live := First(s.actions, IsLive);
    if live.Some? {
      assert RowOk(s.actions[live.value]);
    }
  }

  /**
   After any run made of whole advances and with flags listed in any order: a loop cut off by the
   bound leaves at least eight open MISSING flags. With fewer, driving always ends by itself.
   */
  lemma WholeRunsTakeEightGaps(caseId: nat, customer: nat, prior: seq<Delivery>, ops: seq<Op>, turns: seq<Turn>)
    requires |turns| == MAX_AUTO_STEPS && Whole(Opened(caseId, customer, prior), ops)
    ensures var d := Driven(Case(caseId, customer, prior, ops), turns, []);
            d.stop == Capped ==> |Where(d.state.flags, IsMissing)| >= 8
  {
    hide Case, Opened, Safe, Traced, Led, StoreOk, Driven, GeneralPending;
    CaseHolds(caseId, customer, prior, ops);
    WholeRunsLeaveNothingProposed(caseId, customer, prior, ops);
    NoGeneralPending(Case(caseId, customer, prior, ops));
    CutOffTakesEightGaps(caseId, customer, prior, ops, turns);
  }
}
