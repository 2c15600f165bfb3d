/** Driving a case until it stalls: the step bound is a safety net that is never what ends the loop. */
module CaseCycle {
  import opened Domain
  import opened Sequences
  import opened CaseState
  import opened Confidence
  import opened NbaEngine
  import opened Executor
  import opened Orchestrator
  import opened ActionTable
  import opened ActionSafety
  import opened Runs
  import opened AppendOnly
  import opened FiniteWork

  const MAX_AUTO_STEPS: nat := 12

  /** Why the loop ended: nothing to do, a human is needed, the same action again, or the bound. */
  datatype Stop = Idle | Stalled | Repeated | Capped

  datatype Drive = Drive(state: State, taken: seq<nat>, stop: Stop)

  predicate Stalls(status: ActionStatus) {
    status == ActionStatus.PendingApproval || status == NeedsManualReview || status == Failed
  }

  function After(s1: State, a: Option<nat>, before: seq<nat>): Option<Stop>
    requires a.Some? ==> a.value < |s1.actions|
  {
    if a.None? then Some(Idle)
    else if Stalls(s1.actions[a.value].status) then Some(Stalled)
    else if a.value in before then Some(Repeated)
    else None
  }

  /** The loop, one turn of the environment for each step it may take; `before` was taken already. */
  function Driven(s: State, turns: seq<Turn>, before: seq<nat>): Drive
    decreases |turns|
  {
    if turns == [] then Drive(s, [], Capped)
    else
      var r := Advance(s, turns[0]);
      var now := if r.1.Some? then [r.1.value] else [];
      match After(r.0, r.1, before)
      case Some(stop) => Drive(r.0, now, stop)
      case None =>
        var rest := Driven(r.0, turns[1..], before + now);
        rest.(taken := now + rest.taken)
  }

  // ----- Phases -----

  function Bit(b: bool): nat {
    if b then 1 else 0
  }

  /** The phases still ahead. */
  function Ahead(actions: seq<Action>, impacts: seq<Impact>, grounds: Option<nat>): nat {
    Bit(First(actions, IsLive).Some?)
    + Bit(grounds.Some? && First(impacts, ImpactFor(grounds.value)).None?)
    + Bit(First(actions, Done(EscalateItsm)).None?)
    + Bit(First(actions, Done(ExecuteRecovery)).None?)
    + Bit(First(actions, Done(NotifyCustomer)).None?)
    + Bit(First(actions, Done(CloseCase)).None?)
  }

  function PhasesAhead(s: State): nat {
    Ahead(s.actions, s.impacts, Grounds(s))
  }

  lemma DoneKept(actions: seq<Action>, more: seq<Action>, kind: ActionKind)
    requires |actions| <= |more|
    requires forall i | 0 <= i < |actions| && actions[i].status == Succeeded :: more[i] == actions[i]
    ensures First(actions, Done(kind)).Some? ==> First(more, Done(kind)).Some?
  {
    var x := First(actions, Done(kind));
    if x.Some? {
      assert Done(kind)(more[x.value]);
    }
  }

  /** Settling the live row takes one phase. */
  lemma SettlingTakesPhase(actions: seq<Action>, a: nat, impacts: seq<Impact>, grounds: Option<nat>)
    requires TableOk(actions) && a < |actions| && IsLive(actions[a])
    ensures var after := actions[a := actions[a].(status := Succeeded)];
            Ahead(after, impacts, grounds) < Ahead(actions, impacts, grounds)
  {
    LiveIsNewest(actions, a);
    var after := actions[a := actions[a].(status := Succeeded)];
    forall i | 0 <= i < |after| ensures !IsLive(after[i]) {
      if i < a {
        assert PairOk(actions[i], actions[a]);
      }
    }
    DoneKept(actions, after, EscalateItsm);
    DoneKept(actions, after, ExecuteRecovery);
    DoneKept(actions, after, NotifyCustomer);
    DoneKept(actions, after, CloseCase);
  }

  predicate Phase(kind: ActionKind) {
    kind == EscalateItsm || kind == ExecuteRecovery || kind == NotifyCustomer || kind == CloseCase
  }

  /** So does the first row of a phase to succeed. */
  lemma NewPhaseTakesPhase(actions: seq<Action>, x: Action, impacts: seq<Impact>, grounds: Option<nat>)
    requires First(actions, IsLive).None? && x.status == Succeeded
    ensures Ahead(actions + [x], impacts, grounds) <= Ahead(actions, impacts, grounds)
    ensures Phase(x.kind) && First(actions, Done(x.kind)).None? ==>
              Ahead(actions + [x], impacts, grounds) < Ahead(actions, impacts, grounds)
  {
    FirstAppended(actions, x, IsLive);
    FirstAppended(actions, x, Done(EscalateItsm));
    FirstAppended(actions, x, Done(ExecuteRecovery));
    FirstAppended(actions, x, Done(NotifyCustomer));
    FirstAppended(actions, x, Done(CloseCase));
  }

  // ----- Asking for the same evidence again -----

  /** Branch 1 or 2 will be taken. */
  predicate Asks(s: State) {
    var grounds := Grounds(s);
    grounds.None? || (s.hypotheses[grounds.value].confidence < ACTION_THRESHOLD && Where(s.flags, IsMissing) != [])
  }

  lemma AsksForRequestKey(s: State)
    ensures Asks(s) ==>
            RequestKey(s).Some? && Choose(s, 0).Offer? && KeyOf(Choose(s, 0).proposal.target) == RequestKey(s).value
    ensures !Asks(s) ==> forall scan :: Choose(s, scan).Offer? ==>
            KindOf(Choose(s, scan).proposal.target) != RequestEvidence
  {
    if Where(s.flags, IsMissing) != [] {
      FirstIsListedFirst(s.flags);
    }
  }

  /** An evidence request has been met, and the next decision will come back to it. */
  ghost predicate Echoes(s: State, r: nat) {
    && First(s.actions, IsLive).None?
    && Asks(s)
    && RequestKey(s).Some? && First(s.actions, HasKey(RequestKey(s).value)) == Some(r)
    && s.actions[r].status == Succeeded
  }

  lemma EchoReturns(s: State, t: Turn, r: nat)
    requires Echoes(s, r) && t.scan == 0
    ensures Advance(s, t).1 == Some(r) && Advance(s, t).0.actions == s.actions
  {
    var s1 := s.(reevaluate := false);
    AsksForRequestKey(s1);
    var p := Choose(s1, 0).proposal;
    assert Propose(s1, p).1 == r;
  }

  lemma StillAsks(s: State, after: State)
    requires after.hypotheses == s.hypotheses && after.primary == s.primary && s.flags <= after.flags
    ensures Asks(s) ==> Asks(after) && RequestKey(after) == RequestKey(s)
  {
    if Where(s.flags, IsMissing) != [] {
      FirstIsListedFirst(s.flags);
      FirstOfMore(s.flags, after.flags, IsMissing);
      assert First(after.flags, IsMissing).value in Where(after.flags, IsMissing);
    }
  }

  // ----- One step -----

  /** A step stalls, takes a phase, or is a met evidence request the engine will come back to. */
  ghost predicate Progress(s: State, after: State, a: nat, stable: bool) {
    && a < |after.actions|
    && (|| Stalls(after.actions[a].status)
        || PhasesAhead(after) < PhasesAhead(s)
        || (&& after.actions[a].kind == RequestEvidence
            && PhasesAhead(after) <= PhasesAhead(s)
            && (stable ==> Echoes(after, a))))
  }

  lemma LiveSettles(s: State, a: nat, c: Connector, raised: seq<Flag>)
    requires Safe(s) && a < |s.actions| && IsLive(s.actions[a])
    ensures var after := ExecuteIfReady(s, a, c, raised);
            && |after.actions| == |s.actions|
            && after.actions == s.actions[a := s.actions[a].(status := after.actions[a].status)]
            && (after.actions[a].status == Succeeded || Stalls(after.actions[a].status))
            && after.impacts == s.impacts && after.hypotheses == s.hypotheses && after.primary == s.primary
  {
    assert RowOk(s.actions[a]);
    if s.actions[a].status != ActionStatus.PendingApproval {
      ReadyRunsNow(s, a);
      ExecuteEffect(s, a, c, raised);
    }
  }

  lemma LiveProgress(s: State, s1: State, a: nat, c: Connector, raised: seq<Flag>, stable: bool)
    requires Safe(s) && First(s.actions, IsLive) == Some(a)
    requires s1 == s.(log := s1.log, snapshots := s1.snapshots)
    ensures Progress(s, ExecuteIfReady(s1, a, c, raised), a, stable)
  {
    SameSafe(s, s1);
    LiveSettles(s1, a, c, raised);
    var after := ExecuteIfReady(s1, a, c, raised);
    if after.actions[a].status == Succeeded {
      SettlingTakesPhase(s.actions, a, s.impacts, Grounds(s));
    }
  }

  /** With nothing live, an identical earlier decision is either a dead end or a met request. */
  lemma ExistingIsSettled(s: State, p: Proposal, e: nat)
    requires Safe(s) && First(s.actions, IsLive).None? && Warranted(s, Offer(p))
    requires First(s.actions, HasKey(KeyOf(p.target))) == Some(e)
    ensures Stalls(s.actions[e].status) || (s.actions[e].status == Succeeded && KindOf(p.target) == RequestEvidence)
    ensures s.actions[e].status != Proposed && s.actions[e].status != Approved && s.actions[e].kind == KindOf(p.target)
  {
    hide ApprovalsOk, ExecutionsOk, ImpactsOk;
    assert RowOk(s.actions[e]) && s.actions[e] in s.actions;
    assert !IsLive(s.actions[e]);
    if p.target.Remedy? {
      assert !LiveOrDoneRecovery(s.actions[e]);
    }
  }

  lemma NewOfferSettles(s: State, p: Proposal, c: Connector, raised: seq<Flag>)
    requires Safe(s) && First(s.actions, IsLive).None? && Warranted(s, Offer(p))
    requires First(s.actions, HasKey(KeyOf(p.target))).None?
    ensures var s2, a := Propose(s, p).0, |s.actions|;
            var after := ExecuteIfReady(s2, a, c, raised);
            && Propose(s, p).1 == a
            && |after.actions| == a + 1
            && after.actions == s.actions + [NewAction(p).(status := after.actions[a].status)]
            && (after.actions[a].status == Succeeded || Stalls(after.actions[a].status))
            && after.impacts == s.impacts && after.hypotheses == s.hypotheses && after.primary == s.primary
            && s.flags <= after.flags
  {
    hide TableOk, Settled, Execute, ApprovalsOk, ExecutionsOk, ImpactsOk, Attempts, AdvanceStage;
    var (s2, a) := Propose(s, p);
    ProposeKeepsSafe(s, p);
    assert s2.actions == s.actions + [NewAction(p)];
    if !p.requiresApproval {
      ReadyRunsNow(s2, a);
      ExecuteEffect(s2, a, c, raised);
    }
  }

  lemma NothingDoneYet(s: State, p: Proposal)
    requires Safe(s) && Warranted(s, Offer(p))
    ensures KindOf(p.target) == RequestEvidence
            || (Phase(KindOf(p.target)) && First(s.actions, Done(KindOf(p.target))).None?)
  {
    var kind := KindOf(p.target);
    forall i | 0 <= i < |s.actions| && kind != RequestEvidence ensures !Done(kind)(s.actions[i]) {
      if kind == ExecuteRecovery {
        assert !LiveOrDoneRecovery(s.actions[i]);
      } else {
        assert !OfKind(kind)(s.actions[i]);
      }
    }
  }

  lemma OldOfferProgress(s: State, p: Proposal, t: Turn, e: nat)
    requires Safe(s) && First(s.actions, IsLive).None? && Warranted(s, Offer(p)) && Choose(s, t.scan) == Offer(p)
    requires First(s.actions, HasKey(KeyOf(p.target))) == Some(e)
    ensures Propose(s, p).1 == e
    ensures Progress(s, ExecuteIfReady(Propose(s, p).0, e, t.connector, t.raised), e, t.scan == 0)
  {
    hide Choose, Safe, Warranted, Execute, AdvanceStage;
    var after := ExecuteIfReady(Propose(s, p).0, e, t.connector, t.raised);
    ExistingIsSettled(s, p, e);
    assert after == Prepared(s, p);
    AsksForRequestKey(s);
    StillAsks(s, after);
  }

  lemma OfferProgress(s: State, p: Proposal, t: Turn)
    requires Safe(s) && First(s.actions, IsLive).None? && Warranted(s, Offer(p)) && Choose(s, t.scan) == Offer(p)
    ensures Progress(s, ExecuteIfReady(Propose(s, p).0, Propose(s, p).1, t.connector, t.raised), Propose(s, p).1,
            t.scan == 0)
  {
    hide Choose, Safe, Warranted, Execute, Propose, Progress;
    match First(s.actions, HasKey(KeyOf(p.target))) {
      case Some(e) => OldOfferProgress(s, p, t, e);
      case None =>
        NewOfferSettles(s, p, t.connector, t.raised);
        NothingDoneYet(s, p);
        NewOfferProgress(s, p, t, ExecuteIfReady(Propose(s, p).0, Propose(s, p).1, t.connector, t.raised));
    }
  }

  lemma NewOfferProgress(s: State, p: Proposal, t: Turn, after: State)
    requires First(s.actions, IsLive).None? && First(s.actions, HasKey(KeyOf(p.target))).None?
    requires Choose(s, t.scan) == Offer(p)
    requires KindOf(p.target) == RequestEvidence
             || (Phase(KindOf(p.target)) && First(s.actions, Done(KindOf(p.target))).None?)
    requires |after.actions| == |s.actions| + 1
    requires after.actions == s.actions + [NewAction(p).(status := after.actions[|s.actions|].status)]
    requires after.actions[|s.actions|].status == Succeeded || Stalls(after.actions[|s.actions|].status)
    requires after.impacts == s.impacts && after.hypotheses == s.hypotheses && after.primary == s.primary
             && s.flags <= after.flags
    ensures Progress(s, after, |s.actions|, t.scan == 0)
  {
    hide Ahead, Choose, Asks;
    var x := after.actions[|s.actions|];
    if x.status == Succeeded {
      NewPhaseTakesPhase(s.actions, x, s.impacts, Grounds(s));
      AsksForRequestKey(s);
      StillAsks(s, after);
      FirstAppended(s.actions, x, IsLive);
      FirstSnoc(s.actions, x, HasKey(KeyOf(p.target)));
    }
  }

  lemma SettledIsNotRun(s: State, after: State, a: nat, t: Turn)
    requires a < |after.actions| && after.actions[a].status == Succeeded && PhasesAhead(after) < PhasesAhead(s)
    ensures Progress(s, ExecuteIfReady(after, a, t.connector, t.raised), a, t.scan == 0)
  {}

  lemma AnalysisProgress(s: State, h: nat, t: Turn)
    requires Safe(s) && First(s.actions, IsLive).None? && Warranted(s, Analyse(h))
    ensures var (after, a) := Analysed(s, h, t.exposure);
            Progress(s, ExecuteIfReady(after, a, t.connector, t.raised), a, t.scan == 0)
  {
    hide Progress, Analysed, ExecuteIfReady, Ahead, Safe;
    AnalysisIsFresh(s, h, t.exposure);
    var after := Analysed(s, h, t.exposure).0;
    AnalysisTakesPhase(s.actions, after.actions[|s.actions|], s.impacts, h, t.exposure);
    SettledIsNotRun(s, after, |s.actions|, t);
  }

  /** The first assessment of a hypothesis takes one phase. */
  lemma AnalysisTakesPhase(actions: seq<Action>, x: Action, impacts: seq<Impact>, h: nat, exposure: nat)
    requires First(actions, IsLive).None? && x.status == Succeeded && First(impacts, ImpactFor(h)).None?
    ensures Ahead(actions + [x], impacts + [Impact(h, exposure)], Some(h)) < Ahead(actions, impacts, Some(h))
  {
    NewPhaseTakesPhase(actions, x, impacts, Some(h));
    AssessmentTakesOne(actions + [x], impacts, h, exposure);
  }

  lemma AssessmentTakesOne(actions: seq<Action>, impacts: seq<Impact>, h: nat, exposure: nat)
    requires First(impacts, ImpactFor(h)).None?
    ensures Ahead(actions, impacts + [Impact(h, exposure)], Some(h)) < Ahead(actions, impacts, Some(h))
  {
    FirstAppended(impacts, Impact(h, exposure), ImpactFor(h));
  }

  lemma ClosureProgress(s: State, h: nat, t: Turn)
    requires Safe(s) && First(s.actions, IsLive).None? && Warranted(s, Close(h))
    ensures var (after, a) := ClosedOut(s, h);
            Progress(s, ExecuteIfReady(after, a, t.connector, t.raised), a, t.scan == 0)
  {
    hide Progress, ClosedOut, ExecuteIfReady, Ahead;
    ClosureIsFresh(s, h);
    var after := ClosedOut(s, h).0;
    var x := Action(CloseCase, Closure(h), Succeeded, false, KeyOf(Closure(h)));
    assert First(s.actions, Done(CloseCase)).None?;
    NewPhaseTakesPhase(s.actions, x, s.impacts, Grounds(s));
    SettledIsNotRun(s, after, |s.actions|, t);
  }

  lemma DecideLive(s: State, scan: nat, exposure: nat)
    requires First(s.actions, IsLive).Some?
    ensures Decide(s, scan, exposure).1 == First(s.actions, IsLive)
    ensures var s1 := Decide(s, scan, exposure).0; s1 == s.(log := s1.log, snapshots := s1.snapshots)
  {}

  lemma DecideFresh(s: State, scan: nat, exposure: nat)
    requires First(s.actions, IsLive).None?
    ensures var s1 := s.(reevaluate := false);
            Decide(s, scan, exposure) == Enact(s1, Choose(s1, scan), exposure)
  {}

  lemma AdvanceFrom(s: State, t: Turn, s1: State, a: Option<nat>)
    requires Decide(s, t.scan, t.exposure) == (s1, a)
    ensures Advance(s, t) == (if a.None? then s1 else ExecuteIfReady(s1, a.value, t.connector, t.raised), a)
  {}

  lemma EnactProgresses(s: State, t: Turn, choice: Choice)
    requires Inv(s) && First(s.actions, IsLive).None? && choice == Choose(s, t.scan) && Warranted(s, choice)
    ensures var (s1, a) := Enact(s, choice, t.exposure);
            a.Some? ==> Progress(s, ExecuteIfReady(s1, a.value, t.connector, t.raised), a.value, t.scan == 0)
  {
    match choice
    case Offer(p) => OfferProgress(s, p, t);
    case Analyse(h) => AnalysisProgress(s, h, t);
    case Close(h) => ClosureProgress(s, h, t);
    case _ =>
  }

  lemma CalmProgress(s: State, calm: State, after: State, a: nat, stable: bool)
    requires calm == s.(reevaluate := false) && Progress(calm, after, a, stable)
    ensures Progress(s, after, a, stable)
  {
    hide Ahead, Echoes;
  }

  /** Every step that is neither idle nor stalling makes progress. */
  lemma AdvanceProgresses(s: State, t: Turn)
    requires Inv(s)
    ensures Advance(s, t).1.Some? ==> Progress(s, Advance(s, t).0, Advance(s, t).1.value, t.scan == 0)
  {
    hide Choose, Progress, Enact, Decide, ExecuteIfReady, Safe;
    var (s1, a) := Decide(s, t.scan, t.exposure);
    AdvanceFrom(s, t, s1, a);
    if First(s.actions, IsLive).Some? {
      DecideLive(s, t.scan, t.exposure);
      LiveProgress(s, s1, a.value, t.connector, t.raised, t.scan == 0);
    } else {
      var calm := s.(reevaluate := false);
      DecideFresh(s, t.scan, t.exposure);
      ChoiceWarranted(calm, t.scan);
      CalmKeeps(s, calm);
      EnactProgresses(calm, t, Choose(calm, t.scan));
      if a.Some? {
        CalmProgress(s, calm, Advance(s, t).0, a.value, t.scan == 0);
      }
    }
  }

  // ----- The loop -----

  lemma AdvanceKeeps(s: State, t: Turn)
    requires Inv(s)
    ensures Inv(Advance(s, t).0) && Extends(s, Advance(s, t).0)
  {
    AdvanceIsPlayed(s, t);
    PlayKeeps(s, AdvanceOps(s, t));
    PlayExtends(s, AdvanceOps(s, t));
  }

  lemma AtMostSixAhead(s: State)
    ensures PhasesAhead(s) <= 6
  {}

  lemma EchoEnds(s: State, turns: seq<Turn>, before: seq<nat>, r: nat)
    requires turns != [] && turns[0].scan == 0 && Echoes(s, r) && r in before
    ensures Driven(s, turns, before).taken == [r] && Driven(s, turns, before).stop == Repeated
  {
    EchoReturns(s, turns[0], r);
  }

  /** What the loop makes of one step, given what follows it. */
  function Joined(s1: State, a: Option<nat>, before: seq<nat>, rest: Drive): Drive
    requires a.Some? ==> a.value < |s1.actions|
  {
    var now := if a.Some? then [a.value] else [];
    match After(s1, a, before)
    case Some(stop) => Drive(s1, now, stop)
    case None => rest.(taken := now + rest.taken)
  }

  lemma DrivenJoins(s: State, turns: seq<Turn>, before: seq<nat>, r: (State, Option<nat>))
    requires turns != [] && r == Advance(s, turns[0])
    ensures r.1.Some? ==> r.1.value < |r.0.actions|
    ensures r.1.Some? ==>
            Driven(s, turns, before) == Joined(r.0, r.1, before, Driven(r.0, turns[1..], before + [r.1.value]))
    ensures r.1.None? ==> Driven(s, turns, before) == Drive(r.0, [], Idle)
  {}

  lemma {:induction false} StableDriveStops(s: State, turns: seq<Turn>, before: seq<nat>)
    requires Inv(s) && (forall t | t in turns :: t.scan == 0) && |turns| >= PhasesAhead(s) + 2
    ensures Driven(s, turns, before).stop != Capped && |Driven(s, turns, before).taken| <= PhasesAhead(s) + 2
    decreases |turns|, 1
  {
    assert turns[0] in turns;
    var r := Advance(s, turns[0]);
    AdvanceProgresses(s, turns[0]);
    AdvanceKeeps(s, turns[0]);
    DrivenJoins(s, turns, before, r);
    if r.1.Some? {
      StableRest(s, r.0, r.1.value, turns, before);
    }
  }

  lemma {:induction false} StableRest(s: State, s1: State, a: nat, turns: seq<Turn>, before: seq<nat>)
    requires Inv(s1) && Progress(s, s1, a, true) && (forall t | t in turns :: t.scan == 0)
             && |turns| >= PhasesAhead(s) + 2
    ensures var d := Joined(s1, Some(a), before, Driven(s1, turns[1..], before + [a]));
            d.stop != Capped && |d.taken| <= PhasesAhead(s) + 2
    decreases |turns|, 0
  {
    hide Inv, PhasesAhead, Driven, Stalls;
    assert forall t | t in turns[1..] :: t in turns;
    if After(s1, Some(a), before).None? {
      if PhasesAhead(s1) < PhasesAhead(s) {
        StableDriveStops(s1, turns[1..], before + [a]);
      } else {
        assert turns[1] in turns;
        EchoEnds(s1, turns[1..], before + [a], a);
      }
    }
  }

  /**
   With flags listed in insertion order, driving any reachable case ends by itself within eight
   steps, whatever exposures, connectors and raised flags it meets: the bound of twelve never cuts in.
   */
  lemma BoundIsNeverWhatEndsTheLoop(caseId: nat, customer: nat, prior: seq<Delivery>, ops: seq<Op>, turns: seq<Turn>)
    requires |turns| == MAX_AUTO_STEPS && forall t | t in turns :: t.scan == 0
    ensures var d := Driven(Case(caseId, customer, prior, ops), turns, []);
            d.stop != Capped && |d.taken| <= 8 < MAX_AUTO_STEPS
  {
    var s := Case(caseId, customer, prior, ops);
    CaseHolds(caseId, customer, prior, ops);
    AtMostSixAhead(s);
    StableDriveStops(s, turns, []);
  }

  // ----- Flags listed in any order -----

  function Requests(actions: seq<Action>, ids: seq<nat>): nat {
    if ids == [] then 0
    else Bit(ids[0] < |actions| && actions[ids[0]].kind == RequestEvidence) + Requests(actions, ids[1..])
  }

  lemma {:induction false} DrivenExtends(s: State, turns: seq<Turn>, before: seq<nat>)
    requires Inv(s)
    ensures Extends(s, Driven(s, turns, before).state) && Inv(Driven(s, turns, before).state)
    decreases |turns|
  {
    hide Inv, Advance;
    if turns != [] {
      var r := Advance(s, turns[0]);
      AdvanceKeeps(s, turns[0]);
      if After(r.0, r.1, before).None? {
        DrivenExtends(r.0, turns[1..], before + [r.1.value]);
        Transitive(s, r.0, Driven(s, turns, before).state);
      }
    }
  }

  /** A loop that runs into the bound took no action twice, and all but six of them asked for evidence. */
  lemma {:induction false} CappedDriveAsks(s: State, turns: seq<Turn>, before: seq<nat>)
    requires Inv(s)
    ensures var d := Driven(s, turns, before);
            d.stop == Capped ==>
              && |d.taken| == |turns|
              && NoDuplicates(d.taken)
              && (forall a | a in d.taken :: a !in before)
              && Requests(d.state.actions, d.taken) + PhasesAhead(s) >= |turns|
    decreases |turns|
  {
    hide Inv, Progress, Advance;
    if turns != [] {
      var r := Advance(s, turns[0]);
      AdvanceKeeps(s, turns[0]);
      AdvanceProgresses(s, turns[0]);
      DrivenJoins(s, turns, before, r);
      if r.1.Some? {
        var a := r.1.value;
        CappedDriveAsks(r.0, turns[1..], before + [a]);
        DrivenExtends(r.0, turns[1..], before + [a]);
        CappedStep(s, r.0, a, before, Driven(r.0, turns[1..], before + [a]), |turns|, turns[0].scan == 0);
      }
    }
  }

  lemma CappedStep(s: State, s1: State, a: nat, before: seq<nat>, rest: Drive, n: nat, stable: bool)
    requires Progress(s, s1, a, stable) && Extends(s1, rest.state) && n > 0
    requires rest.stop == Capped ==>
        && |rest.taken| == n - 1
        && NoDuplicates(rest.taken)
        && (forall b | b in rest.taken :: b !in before + [a])
        && Requests(rest.state.actions, rest.taken) + PhasesAhead(s1) >= n - 1
    ensures var d := Joined(s1, Some(a), before, rest);
            d.stop == Capped ==>
              && |d.taken| == n
              && NoDuplicates(d.taken)
              && (forall b | b in d.taken :: b !in before)
              && Requests(d.state.actions, d.taken) + PhasesAhead(s) >= n
  {
    assert ([a] + rest.taken)[1..] == rest.taken;
    assert a in before + [a] && forall b | b in before :: b in before + [a];
  }

  /** In any reachable case, a loop cut off by the bound made six distinct evidence requests or more. */
  lemma OnlyEvidenceRequestsReachTheBound(
      caseId: nat, customer: nat, prior: seq<Delivery>, ops: seq<Op>, turns: seq<Turn>)
    requires |turns| == MAX_AUTO_STEPS
    ensures var d := Driven(Case(caseId, customer, prior, ops), turns, []);
            d.stop == Capped ==>
              |d.taken| == MAX_AUTO_STEPS && NoDuplicates(d.taken) && Requests(d.state.actions, d.taken) >= 6
  {
    var s := Case(caseId, customer, prior, ops);
    CaseHolds(caseId, customer, prior, ops);
    AtMostSixAhead(s);
    CappedDriveAsks(s, turns, []);
  }
}
