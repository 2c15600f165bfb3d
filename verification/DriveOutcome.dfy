/** Why driving a case stops: it is finished, it needs a human, or it waits for evidence it asked for. */
module DriveOutcome {
  import opened Domain
  import opened Sequences
  import opened CaseState
  import opened NbaEngine
  import opened Executor
  import opened Orchestrator
  import opened ActionTable
  import opened ActionSafety
  import opened Runs
  import opened CaseCycle
  import opened Finality
  import Catalog = RecoveryCatalog
  import Rules = DecisionRules

  predicate NoticeFailed(a: Action) {
    a.kind == NotifyCustomer && (a.status == Failed || a.status == NeedsManualReview)
  }

  /** Every remedy there is for the primary hypothesis's category has been rejected or has failed. */
  ghost predicate OptionsUsedUp(s: State) {
    exists h: nat :: Rules.WorksFrom(s, h) &&
      forall code | code in Rules.RemediesFor(s.hypotheses[h].category) :: Rules.WasTurnedDown(s, code)
  }

  /** Nothing more will happen to the action by itself. */
  predicate AtRest(a: Action) {
    a.status in {Rejected, Succeeded, Failed, NeedsManualReview}
  }

  /** A person has to approve it, to look at it again, or to see why it failed. */
  predicate NeedsPerson(a: Action) {
    a.status in {ActionStatus.PendingApproval, NeedsManualReview, Failed}
  }

  /** Nothing is in flight, and the case is closed, its notice did not get through, or nothing is left to offer. */
  ghost predicate Finished(s: State) {
    && (forall a | 0 <= a < |s.actions| :: AtRest(s.actions[a]))
    && (First(s.actions, OfKind(CloseCase)).Some? || First(s.actions, NoticeFailed).Some? || OptionsUsedUp(s))
  }

  ghost predicate Explained(d: Drive) {
    match d.stop
    case Idle => Finished(d.state)
    case Stalled => d.taken != [] && Last(d) < |d.state.actions| && NeedsPerson(d.state.actions[Last(d)])
    case Repeated =>
      && d.taken != [] && Last(d) < |d.state.actions|
      && d.state.actions[Last(d)].kind == RequestEvidence && d.state.actions[Last(d)].status == Succeeded
    case Capped => true
  }

  function Last(d: Drive): nat
    requires d.taken != []
  {
    d.taken[|d.taken| - 1]
  }

  // ----- Idle -----

  lemma ExhaustionUsesUp(s: State, h: nat, exposure: nat)
    requires Grounds(s) == Some(h)
    requires Catalog.BestOption(Catalog.Rank(s.hypotheses[h].category, exposure), RejectedCodes(s.actions)).None?
    ensures OptionsUsedUp(s)
  {
    hide Catalog.Rank, Catalog.BestOption, RejectedCodes, Rules.RemediesFor, Rules.WasTurnedDown;
    Rules.BestIsNext(s.hypotheses[h].category, exposure, RejectedCodes(s.actions));
    forall code { Rules.TurnedDownIs(s, code); }
    assert Rules.WorksFrom(s, h);
  }

  lemma RemedyIdle(s: State, h: nat, exposure: nat)
    requires Safe(s) && First(s.actions, IsLive).None? && Grounds(s) == Some(h)
    requires ChooseRemedy(s, h, exposure).Exhausted? || ChooseRemedy(s, h, exposure).Nothing?
    ensures Finished(s)
  {
    hide Catalog.BestOption, Catalog.Rank, RejectedCodes, PairOk, CausesOk, ApprovalsOk, ExecutionsOk, ImpactsOk,
      OptionsUsedUp;
    if First(s.actions, LiveOrDoneRecovery).None? {
      ExhaustionUsesUp(s, h, exposure);
    } else {
      NoticeStands(s.actions);
    }
  }

  /** A case with a recovery and nothing live has a succeeded recovery; a notice that is not done has failed. */
  lemma NoticeStands(actions: seq<Action>)
    requires forall i | 0 <= i < |actions| :: RowOk(actions[i])
    requires First(actions, IsLive).None? && First(actions, LiveOrDoneRecovery).Some?
    ensures First(actions, Done(ExecuteRecovery)).Some?
    ensures First(actions, OfKind(NotifyCustomer)).Some? && First(actions, Done(NotifyCustomer)).None? ==>
              First(actions, NoticeFailed).Some?
  {
    var r := First(actions, LiveOrDoneRecovery).value;
    assert !IsLive(actions[r]) && Done(ExecuteRecovery)(actions[r]);
    var n := First(actions, OfKind(NotifyCustomer));
    if n.Some? {
      assert RowOk(actions[n.value]) && !IsLive(actions[n.value]);
      assert Done(NotifyCustomer)(actions[n.value]) || NoticeFailed(actions[n.value]);
    }
  }

  lemma ChoiceIdle(s: State, scan: nat)
    requires Safe(s) && First(s.actions, IsLive).None?
    requires Choose(s, scan).Exhausted? || Choose(s, scan).Nothing?
    ensures Finished(s)
  {
    hide ChooseRemedy, NeedsItsmCheck, Safe, Finished;
    var h := Grounds(s).value;
    RemedyIdle(s, h, s.impacts[First(s.impacts, ImpactFor(h)).value].exposure);
  }

  lemma IdleIsFinished(s: State, t: Turn)
    requires Inv(s) && Advance(s, t).1.None?
    ensures Finished(Advance(s, t).0)
  {
    hide Choose, Safe, Propose, Analysed, ClosedOut, Decide, ExecuteIfReady;
    var (s1, a) := Decide(s, t.scan, t.exposure);
    AdvanceFrom(s, t, s1, a);
    if First(s.actions, IsLive).Some? {
      DecideLive(s, t.scan, t.exposure);
    } else {
      var calm := s.(reevaluate := false);
      DecideFresh(s, t.scan, t.exposure);
      CalmIsSafe(s, calm);
      ChoiceIdle(calm, t.scan);
      SameFinish(calm, s1);
    }
  }

  lemma SameFinish(s: State, after: State)
    requires Finished(s) && after.actions == s.actions && after.hypotheses == s.hypotheses && after.primary == s.primary
    ensures Finished(after)
  {
    hide Rules.RemediesFor;
    if OptionsUsedUp(s) {
      var h: nat :| Rules.WorksFrom(s, h) &&
        forall code | code in Rules.RemediesFor(s.hypotheses[h].category) :: Rules.WasTurnedDown(s, code);
      forall code | code in Rules.RemediesFor(s.hypotheses[h].category) ensures Rules.WasTurnedDown(after, code) {
        assert Rules.WasTurnedDown(s, code);
      }
      assert Rules.WorksFrom(after, h);
    }
  }

  // ----- Stalled and repeated -----

  /** An action handed back has succeeded or stalls; if it had succeeded before, it asks for evidence. */
  ghost predicate HandedBack(s: State, after: State, a: nat) {
    && a < |after.actions|
    && (after.actions[a].status == Succeeded || NeedsPerson(after.actions[a]))
    && (a < |s.actions| && s.actions[a].status == Succeeded && !NeedsPerson(after.actions[a]) ==>
          after.actions[a].kind == RequestEvidence)
  }

  lemma OfferHandsBack(s: State, p: Proposal, t: Turn)
    requires Safe(s) && First(s.actions, IsLive).None? && Warranted(s, Offer(p))
    ensures HandedBack(s, ExecuteIfReady(Propose(s, p).0, Propose(s, p).1, t.connector, t.raised), Propose(s, p).1)
  {
    hide Safe, Warranted, Execute, AdvanceStage;
    match First(s.actions, HasKey(KeyOf(p.target))) {
      case Some(e) => ExistingIsSettled(s, p, e);
      case None => NewOfferSettles(s, p, t.connector, t.raised);
    }
  }

  lemma InlineHandsBack(s: State, after: State, t: Turn)
    requires |after.actions| == |s.actions| + 1 && after.actions[|s.actions|].status == Succeeded
    ensures HandedBack(s, ExecuteIfReady(after, |s.actions|, t.connector, t.raised), |s.actions|)
  {}

  lemma EnactHandsBack(s: State, t: Turn, choice: Choice)
    requires Safe(s) && First(s.actions, IsLive).None? && Warranted(s, choice)
    ensures var (s1, a) := Enact(s, choice, t.exposure);
            a.Some? ==> HandedBack(s, ExecuteIfReady(s1, a.value, t.connector, t.raised), a.value)
  {
    hide Safe, HandedBack, ExecuteIfReady, Propose, Analysed, ClosedOut;
    match choice
    case Offer(p) => OfferHandsBack(s, p, t);
    case Analyse(h) =>
      AnalysisIsFresh(s, h, t.exposure);
      InlineHandsBack(s, Analysed(s, h, t.exposure).0, t);
    case Close(h) => ClosureHandsBack(s, h, t);
    case _ =>
  }

  lemma ClosureHandsBack(s: State, h: nat, t: Turn)
    requires Safe(s) && First(s.actions, OfKind(CloseCase)).None?
    ensures ClosedOut(s, h).1 == |s.actions|
    ensures HandedBack(s, ExecuteIfReady(ClosedOut(s, h).0, |s.actions|, t.connector, t.raised), |s.actions|)
  {
    hide HandedBack, ClosedOut, ExecuteIfReady, ApprovalsOk, ExecutionsOk, ImpactsOk;
    ClosureIsFresh(s, h);
    InlineHandsBack(s, ClosedOut(s, h).0, t);
  }

  lemma AdvanceHandsBack(s: State, t: Turn)
    requires Inv(s)
    ensures Advance(s, t).1.Some? ==> HandedBack(s, Advance(s, t).0, Advance(s, t).1.value)
  {
    hide Safe, Choose, Enact, Decide, ExecuteIfReady, Warranted;
    var (s1, a) := Decide(s, t.scan, t.exposure);
    AdvanceFrom(s, t, s1, a);
    if First(s.actions, IsLive).Some? {
      DecideLive(s, t.scan, t.exposure);
      CalmIsSafeToo(s, s1);
      LiveSettles(s1, a.value, t.connector, t.raised);
    } else {
      var calm := s.(reevaluate := false);
      DecideFresh(s, t.scan, t.exposure);
      CalmIsSafe(s, calm);
      ChoiceWarranted(calm, t.scan);
      EnactHandsBack(calm, t, Choose(calm, t.scan));
    }
  }

  lemma CalmIsSafeToo(s: State, s1: State)
    requires Safe(s) && s1 == s.(log := s1.log, snapshots := s1.snapshots)
    ensures Safe(s1)
  {
    SameSafe(s, s1);
  }

  // ----- The loop -----

  /** Everything taken so far has succeeded. */
  ghost predicate AllMet(s: State, before: seq<nat>) {
    forall a | a in before :: a < |s.actions| && s.actions[a].status == Succeeded
  }

  lemma StepIsExplained(s: State, s1: State, a: nat, before: seq<nat>, rest: Drive)
    requires HandedBack(s, s1, a) && AllMet(s, before)
    requires After(s1, Some(a), before).None? ==> Explained(rest)
    ensures Explained(Joined(s1, Some(a), before, rest))
  {}

  lemma StaysMet(s: State, s1: State, a: nat, before: seq<nat>)
    requires HandedBack(s, s1, a) && AllMet(s, before) && Keeps(s, s1) && !Stalls(s1.actions[a].status)
    ensures AllMet(s1, before + [a])
  {}

  lemma {:induction false} DriveIsExplained(s: State, turns: seq<Turn>, before: seq<nat>)
    requires Inv(s) && AllMet(s, before)
    ensures Explained(Driven(s, turns, before))
    decreases |turns|
  {
    hide Inv, Advance, Driven, AllMet, Explained, HandedBack, Keeps;
    if turns == [] {
      assert Explained(Driven(s, turns, before)) by { NoTurns(s, before); }
    } else {
      var r := Advance(s, turns[0]);
      AdvanceKeeps(s, turns[0]);
      AdvanceHandsBack(s, turns[0]);
      DrivenJoins(s, turns, before, r);
      if r.1.None? {
        IdleIsFinished(s, turns[0]);
        assert Explained(Drive(r.0, [], Idle)) by { IdleDrive(r.0); }
      } else {
        var a := r.1.value;
        if After(r.0, r.1, before).None? {
          AdvanceKeepsFinal(s, turns[0]);
          StaysMet(s, r.0, a, before);
          DriveIsExplained(r.0, turns[1..], before + [a]);
        }
        StepIsExplained(s, r.0, a, before, Driven(r.0, turns[1..], before + [a]));
      }
    }
  }

  lemma NoTurns(s: State, before: seq<nat>)
    ensures Explained(Driven(s, [], before))
  {}

  lemma IdleDrive(s: State)
    requires Finished(s)
    ensures Explained(Drive(s, [], Idle))
  {}

  lemma AdvanceKeepsFinal(s: State, t: Turn)
    requires Inv(s)
    ensures Keeps(s, Advance(s, t).0)
  {
    hide Inv, Advance, AdvanceOps, Keeps;
    AdvanceIsPlayed(s, t);
    PlayKeepsFinal(s, AdvanceOps(s, t));
  }

  /**
   Driving any reachable case stops only where the design says it may: idle means closed, a
   notice that did not get through, or no option left; a stall is a pending approval, a manual
   review or a failure; a repeat is an evidence request that has gone out.
   */
  lemma StopsOnlyWhereDesigned(caseId: nat, customer: nat, prior: seq<Delivery>, ops: seq<Op>, turns: seq<Turn>)
    ensures Explained(Driven(Case(caseId, customer, prior, ops), turns, []))
  {
    hide Inv, Driven, Explained, Case;
    CaseHolds(caseId, customer, prior, ops);
    DriveIsExplained(Case(caseId, customer, prior, ops), turns, []);
  }

  // ----- Step by step -----

  /** The step answered an action that no person is needed for and that had not been answered before. */
  predicate GoesOn(after: State, answer: Option<nat>, before: seq<nat>) {
    && answer.Some? && answer.value < |after.actions|
    && !NeedsPerson(after.actions[answer.value])
    && answer.value !in before
  }

  /** Why a loop is left after a step, or for want of another. */
  ghost predicate LeavesAs(stop: Stop, after: State, answer: Option<nat>, before: seq<nat>) {
    match stop
    case Idle => answer.None?
    case Stalled => answer.Some? && answer.value < |after.actions| && NeedsPerson(after.actions[answer.value])
    case Repeated => answer.Some? && answer.value < |after.actions|
      && !NeedsPerson(after.actions[answer.value]) && answer.value in before
    case Capped => GoesOn(after, answer, before)
  }

  /** The k-th step of a drive: an advance, to the next state, with the answer on record. */
  ghost predicate StepIs(turns: seq<Turn>, before: seq<nat>, states: seq<State>, d: Drive, k: nat)
    requires k + 1 < |states| <= |turns| + 1 && |states| - 2 <= |d.taken|
  {
    var (after, answer) := Advance(states[k], turns[k]);
    && states[k + 1] == after
    && answer == (if k < |d.taken| then Some(d.taken[k]) else None)
    && if k + 2 < |states| then GoesOn(after, answer, before + d.taken[..k])
       else LeavesAs(d.stop, after, answer, before + d.taken[..k])
  }

  /** The states a drive goes through: each is an advance of the one before, each but the last goes on. */
  ghost predicate GoesThrough(turns: seq<Turn>, before: seq<nat>, states: seq<State>, d: Drive) {
    && 0 < |states| <= |turns| + 1
    && |states| - 2 <= |d.taken| <= |states| - 1
    && d.state == states[|states| - 1]
    && (forall k | 0 <= k < |states| - 1 :: StepIs(turns, before, states, d, k))
    && (|states| == 1 ==> d.stop == Capped)
    && (d.stop == Capped ==> |states| == |turns| + 1)
  }

  /** A drive is advance after advance, each going on from the last, until one gives a reason to stop. */
  lemma {:induction false} DriveGoesThrough(s: State, turns: seq<Turn>, before: seq<nat>)
    ensures exists states ::
              states != [] && states[0] == s && GoesThrough(turns, before, states, Driven(s, turns, before))
    decreases |turns|
  {
    hide Advance, GoesThrough;
    if turns == [] {
      NoStep(s, before);
      assert GoesThrough(turns, before, [s], Driven(s, turns, before));
    } else {
      var (after, answer) := Advance(s, turns[0]);
      if After(after, answer, before).Some? {
        OneStep(s, turns, before, after, answer);
        assert GoesThrough(turns, before, [s, after], Driven(s, turns, before));
      } else {
        DriveGoesThrough(after, turns[1..], before + [answer.value]);
        var rest := Driven(after, turns[1..], before + [answer.value]);
        var states :| states != [] && states[0] == after
          && GoesThrough(turns[1..], before + [answer.value], states, rest);
        StepBefore(s, turns, before, after, answer, states, rest);
        assert Driven(s, turns, before) == rest.(taken := [answer.value] + rest.taken);
        assert ([s] + states)[0] == s;
      }
    }
  }

  lemma NoStep(s: State, before: seq<nat>)
    ensures GoesThrough([], before, [s], Driven(s, [], before))
  {}

  lemma OneStep(s: State, turns: seq<Turn>, before: seq<nat>, after: State, answer: Option<nat>)
    requires turns != [] && Advance(s, turns[0]) == (after, answer)
    requires answer.Some? ==> answer.value < |after.actions|
    requires After(after, answer, before).Some?
    ensures GoesThrough(turns, before, [s, after], Driven(s, turns, before))
  {
    hide Advance;
    var d := Driven(s, turns, before);
    assert before + d.taken[..0] == before;
  }

  lemma StepBefore(
    s: State, turns: seq<Turn>, before: seq<nat>, after: State, answer: Option<nat>, states: seq<State>, rest: Drive)
    requires turns != [] && Advance(s, turns[0]) == (after, answer)
    requires answer.Some? && answer.value < |after.actions| && After(after, answer, before).None?
    requires states != [] && states[0] == after && GoesThrough(turns[1..], before + [answer.value], states, rest)
    ensures GoesThrough(turns, before, [s] + states, rest.(taken := [answer.value] + rest.taken))
  {
    hide Advance;
    var d, all := rest.(taken := [answer.value] + rest.taken), [s] + states;
    assert before + d.taken[..0] == before;
    forall k | 0 <= k < |all| - 1 ensures StepIs(turns, before, all, d, k) {
      if k > 0 {
        assert StepIs(turns[1..], before + [answer.value], states, rest, k - 1);
        assert before + d.taken[..k] == before + [answer.value] + rest.taken[..k - 1];
      }
    }
  }
}
