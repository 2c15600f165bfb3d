/**
 How many gaps in the evidence it takes to run the drive loop into its bound, whatever order open
 flags are listed in: evidence requests and the other phases exclude each other, so nearly every
 step has to be a request of its own.
 */
module OpenGaps {
  import opened Domain
  import opened Sequences
  import opened CaseState
  import opened Confidence
  import opened NbaEngine
  import opened Executor
  import opened Orchestrator
  import opened ActionTable
  import opened ActionSafety
  import opened HypothesisInvariants
  import opened Tracing
  import opened Runs
  import opened AppendOnly
  import opened FiniteWork
  import opened CaseCycle
  import Catalog = RecoveryCatalog

  // ----- What is still ahead besides evidence requests -----

  /** The request made for want of any hypothesis is still to be carried out. */
  predicate GeneralPending(actions: seq<Action>) {
    var live := First(actions, IsLive);
    live.Some? && actions[live.value].target.NoActiveHypothesis?
  }

  /** Phases ahead that neither ask about a flag nor close the case. */
  function Remaining(actions: seq<Action>, impacts: seq<Impact>, h: nat): nat {
    Bit(GeneralPending(actions))
    + Bit(First(impacts, ImpactFor(h)).None?)
    + Bit(First(actions, Done(EscalateItsm)).None?)
    + Bit(First(actions, Done(ExecuteRecovery)).None?)
    + Bit(First(actions, Done(NotifyCustomer)).None?)
  }

  /** Nothing is live, and the next decision will be to ask about a flag. */
  predicate Thirsts(s: State) {
    && First(s.actions, IsLive).None?
    && Grounds(s).Some?
    && s.hypotheses[Grounds(s).value].confidence < ACTION_THRESHOLD
    && Where(s.flags, IsMissing) != []
  }

  /** A step asked about a flag. */
  predicate AsksAbout(actions: seq<Action>, a: nat) {
    a < |actions| && actions[a].target.MissingEvidence?
  }

  /** The live action asks about a flag. */
  predicate FlagPending(actions: seq<Action>) {
    First(actions, IsLive).Some? && AsksAbout(actions, First(actions, IsLive).value)
  }

  /** Nothing is left to decide. */
  ghost predicate Shut(s: State) {
    forall t :: Advance(s, t).1.None?
  }

  /** A step that went through: a flag asked about, a phase taken, or the case closed. */
  ghost predicate Took(s: State, after: State, a: nat, h: nat) {
    && First(after.actions, IsLive).None?
    && Grounds(after) == Some(h) && s.flags <= after.flags && after.hypotheses == s.hypotheses
    && (|| (&& AsksAbout(after.actions, a)
            && Remaining(after.actions, after.impacts, h) <= Remaining(s.actions, s.impacts, h)
            && (Thirsts(s) || FlagPending(s.actions)))
        || (!Thirsts(s) && Remaining(after.actions, after.impacts, h) < Remaining(s.actions, s.impacts, h))
        || (!Thirsts(s) && Shut(after)))
  }

  // ----- The live action settles -----

  lemma LiveTakesOne(actions: seq<Action>, a: nat, impacts: seq<Impact>, h: nat)
    requires TableOk(actions) && First(actions, IsLive) == Some(a)
    ensures var after := actions[a := actions[a].(status := Succeeded)];
            && First(after, IsLive).None?
            && Remaining(after, impacts, h) <= Remaining(actions, impacts, h)
            && (AsksAbout(after, a) || Remaining(after, impacts, h) < Remaining(actions, impacts, h))
  {
    hide TableOk, First;
    var after := actions[a := actions[a].(status := Succeeded)];
    NoneLiveAfter(actions, a, after);
    OnlyPhasesAreLive(actions, a);
    DoneKept(actions, after, EscalateItsm);
    DoneKept(actions, after, ExecuteRecovery);
    DoneKept(actions, after, NotifyCustomer);
    if Phase(actions[a].kind) {
      assert Done(actions[a].kind)(after[a]);
    }
  }

  lemma NoneLiveAfter(actions: seq<Action>, a: nat, after: seq<Action>)
    requires TableOk(actions) && a < |actions| && IsLive(actions[a])
    requires after == actions[a := actions[a].(status := Succeeded)]
    ensures First(after, IsLive).None?
  {
    hide CausesOk, RowOk;
    LiveIsNewest(actions, a);
    forall i | 0 <= i < a ensures PairOk(actions[i], actions[a]) && after[i] == actions[i] {}
  }

  /** A live action asks for evidence, or is the first of its phase. */
  lemma OnlyPhasesAreLive(actions: seq<Action>, a: nat)
    requires TableOk(actions) && a < |actions| && IsLive(actions[a])
    ensures if actions[a].kind == RequestEvidence then
              actions[a].target.NoActiveHypothesis? || actions[a].target.MissingEvidence?
            else Phase(actions[a].kind) && actions[a].kind != CloseCase && First(actions, Done(actions[a].kind)).None?
  {
    hide CausesOk;
    LiveIsNewest(actions, a);
    assert RowOk(actions[a]);
    forall i | 0 <= i < a ensures PairOk(actions[i], actions[a]) {}
  }

  lemma LiveTook(s: State, s1: State, a: nat, h: nat, c: Connector, raised: seq<Flag>)
    requires Safe(s) && First(s.actions, IsLive) == Some(a) && Grounds(s) == Some(h)
    requires s1 == s.(log := s1.log, snapshots := s1.snapshots)
    ensures var after := ExecuteIfReady(s1, a, c, raised);
            a < |after.actions| && (Stalls(after.actions[a].status) || Took(s, after, a, h))
  {
    hide Remaining, Shut;
    SameSafe(s, s1);
    LiveSettles(s1, a, c, raised);
    FlagsGrow(s1, a, c, raised);
    LiveTakesOne(s.actions, a, s.impacts, h);
  }

  lemma FlagsGrow(s: State, a: nat, c: Connector, raised: seq<Flag>)
    requires Safe(s)
    ensures s.flags <= ExecuteIfReady(s, a, c, raised).flags
  {
    hide Execute;
    RunIsSameWork(s, a, c, raised);
  }

  // ----- A new decision -----

  lemma PhaseTakesOne(actions: seq<Action>, x: Action, impacts: seq<Impact>, h: nat)
    requires First(actions, IsLive).None? && x.status == Succeeded
    ensures First(actions + [x], IsLive).None?
    ensures Remaining(actions + [x], impacts, h) <= Remaining(actions, impacts, h)
    ensures Phase(x.kind) && x.kind != CloseCase && First(actions, Done(x.kind)).None? ==>
              Remaining(actions + [x], impacts, h) < Remaining(actions, impacts, h)
  {
    FirstAppended(actions, x, IsLive);
    FirstAppended(actions, x, Done(EscalateItsm));
    FirstAppended(actions, x, Done(ExecuteRecovery));
    FirstAppended(actions, x, Done(NotifyCustomer));
  }

  lemma ThirstChooses(s: State, scan: nat)
    requires First(s.actions, IsLive).None? && Grounds(s).Some?
    ensures Thirsts(s) <==> Choose(s, scan).Offer? && KindOf(Choose(s, scan).proposal.target) == RequestEvidence
    ensures Thirsts(s) <==> Choose(s, scan).Offer? && Choose(s, scan).proposal.target.MissingEvidence?
  {
    hide First, Where, AnyOf, NeedsItsmCheck, RejectedCodes, Catalog.BestOption, Catalog.Rank;
  }

  lemma OldOfferTook(s: State, p: Proposal, t: Turn, e: nat, h: nat)
    requires Safe(s) && First(s.actions, IsLive).None? && Warranted(s, Offer(p)) && Choose(s, t.scan) == Offer(p)
    requires First(s.actions, HasKey(KeyOf(p.target))) == Some(e) && Grounds(s) == Some(h)
    ensures var after := ExecuteIfReady(Propose(s, p).0, e, t.connector, t.raised);
            Propose(s, p).1 == e && e < |after.actions| && (Stalls(after.actions[e].status) || Took(s, after, e, h))
  {
    hide Choose, Execute, AdvanceStage, Remaining, Shut, ApprovalsOk, ExecutionsOk, ImpactsOk;
    ExistingIsSettled(s, p, e);
    ThirstChooses(s, t.scan);
    assert RowOk(s.actions[e]);
    assert ExecuteIfReady(Propose(s, p).0, e, t.connector, t.raised) == Prepared(s, p);
  }

  lemma NewOfferTook(s: State, p: Proposal, t: Turn, h: nat)
    requires Safe(s) && First(s.actions, IsLive).None? && Warranted(s, Offer(p)) && Choose(s, t.scan) == Offer(p)
    requires First(s.actions, HasKey(KeyOf(p.target))).None? && Grounds(s) == Some(h)
    ensures var (s2, a) := Propose(s, p);
            var after := ExecuteIfReady(s2, a, t.connector, t.raised);
            a < |after.actions| && (Stalls(after.actions[a].status) || Took(s, after, a, h))
  {
    hide Choose, Execute, Propose, Remaining, Shut, Safe, ExecuteIfReady;
    NewOfferSettles(s, p, t.connector, t.raised);
    NothingDoneYet(s, p);
    ThirstChooses(s, t.scan);
    var after := ExecuteIfReady(Propose(s, p).0, |s.actions|, t.connector, t.raised);
    if after.actions[|s.actions|].status == Succeeded {
      PhaseTakesOne(s.actions, after.actions[|s.actions|], s.impacts, h);
    }
  }

  lemma AnalysisTook(s: State, h: nat, t: Turn)
    requires Safe(s) && First(s.actions, IsLive).None? && Choose(s, t.scan) == Analyse(h) && Warranted(s, Analyse(h))
    ensures var (s1, a) := Analysed(s, h, t.exposure);
            ExecuteIfReady(s1, a, t.connector, t.raised) == s1 && a < |s1.actions| && Took(s, s1, a, h)
  {
    hide Choose, Analysed, Shut, Safe, First;
    AnalysisIsFresh(s, h, t.exposure);
    ThirstChooses(s, t.scan);
    var after := Analysed(s, h, t.exposure).0;
    PhaseTakesOne(s.actions, after.actions[|s.actions|], s.impacts, h);
    FirstAppended(s.impacts, Impact(h, t.exposure), ImpactFor(h));
  }

  lemma ClosureTook(s: State, h: nat, t: Turn)
    requires Safe(s) && First(s.actions, IsLive).None? && Choose(s, t.scan) == Close(h) && Warranted(s, Close(h))
    ensures var (s1, a) := ClosedOut(s, h);
            ExecuteIfReady(s1, a, t.connector, t.raised) == s1 && a < |s1.actions| && Took(s, s1, a, h)
  {
    hide ClosedOut, Shut, Remaining, ApprovalsOk, ExecutionsOk, ImpactsOk, Choose;
    ClosureIsFresh(s, h);
    ThirstChooses(s, t.scan);
    var after := ClosedOut(s, h).0;
    FirstAppended(s.actions, after.actions[|s.actions|], IsLive);
    ClosedIsShut(s, h, t.scan, after);
  }

  lemma ClosedIsShut(s: State, h: nat, scan: nat, after: State)
    requires First(s.actions, IsLive).None? && Choose(s, scan) == Close(h)
    requires after.actions == s.actions + [Action(CloseCase, Closure(h), Succeeded, false, KeyOf(Closure(h)))]
    requires after.hypotheses == s.hypotheses && after.primary == s.primary && after.flags == s.flags
    requires after.impacts == s.impacts && after.evidence == s.evidence && after.customer == s.customer
    ensures Shut(after)
  {
    hide Choose, First;
    forall t ensures Advance(after, t).1.None? {
      ClosedChoosesNothing(s, h, scan, after.(reevaluate := false), t.scan);
      FirstAppended(s.actions, after.actions[|s.actions|], IsLive);
      DecideFresh(after, t.scan, t.exposure);
    }
  }

  lemma ClosedChoosesNothing(s: State, h: nat, scan: nat, after: State, again: nat)
    requires Choose(s, scan) == Close(h)
    requires after.actions == s.actions + [Action(CloseCase, Closure(h), Succeeded, false, KeyOf(Closure(h)))]
    requires after.hypotheses == s.hypotheses && after.primary == s.primary && after.flags == s.flags
    requires after.impacts == s.impacts && after.evidence == s.evidence && after.customer == s.customer
    ensures Choose(after, again) == Nothing
  {
    hide Catalog.BestOption, Catalog.Rank, RejectedCodes, Where;
    var x := after.actions[|s.actions|];
    FirstAppended(s.actions, x, OfKind(EscalateItsm));
    FirstAppended(s.actions, x, LiveOrDoneRecovery);
    FirstAppended(s.actions, x, OfKind(NotifyCustomer));
    FirstAppended(s.actions, x, OfKind(CloseCase));
    assert First(s.actions, OfKind(NotifyCustomer)).Some?;
  }

  /** Every step that neither idles nor stalls, in a case with an active primary. */
  lemma AdvanceTook(s: State, t: Turn, h: nat)
    requires Inv(s) && Grounds(s) == Some(h)
    ensures var (after, a) := Advance(s, t);
            a.Some? ==>
              && a.value < |after.actions|
              && (Stalls(after.actions[a.value].status) || Took(s, after, a.value, h))
  {
    hide Choose, Took, Enact, Decide, ExecuteIfReady, Safe, StoreOk;
    var (s1, a) := Decide(s, t.scan, t.exposure);
    AdvanceFrom(s, t, s1, a);
    if First(s.actions, IsLive).Some? {
      DecideLive(s, t.scan, t.exposure);
      LiveTook(s, s1, a.value, h, t.connector, t.raised);
    } else {
      var calm := s.(reevaluate := false);
      DecideFresh(s, t.scan, t.exposure);
      ChoiceWarranted(calm, t.scan);
      CalmKeeps(s, calm);
      EnactTook(calm, t, Choose(calm, t.scan), h);
      if a.Some? {
        CalmTook(s, calm, Advance(s, t).0, a.value, h);
      }
    }
  }

  lemma EnactTook(s: State, t: Turn, choice: Choice, h: nat)
    requires Safe(s) && First(s.actions, IsLive).None? && Grounds(s) == Some(h)
    requires choice == Choose(s, t.scan) && Warranted(s, choice)
    ensures var (s1, a) := Enact(s, choice, t.exposure);
            var after := if a.None? then s1 else ExecuteIfReady(s1, a.value, t.connector, t.raised);
            a.Some? ==>
              && a.value < |after.actions|
              && (Stalls(after.actions[a.value].status) || Took(s, after, a.value, h))
  {
    hide Choose, Took, Propose, Analysed, ClosedOut, ExecuteIfReady, Safe;
    match choice
    case Offer(p) =>
      match First(s.actions, HasKey(KeyOf(p.target))) {
        case Some(e) => OldOfferTook(s, p, t, e, h);
        case None => NewOfferTook(s, p, t, h);
      }
    case Analyse(_) => AnalysisTook(s, h, t);
    case Close(_) => ClosureTook(s, h, t);
    case _ =>
  }

  lemma CalmTook(s: State, calm: State, after: State, a: nat, h: nat)
    requires calm == s.(reevaluate := false) && a < |after.actions|
    requires Stalls(after.actions[a].status) || Took(calm, after, a, h)
    ensures Stalls(after.actions[a].status) || Took(s, after, a, h)
  {
    hide Remaining, Shut;
  }

  // ----- The loop -----

  function AboutFlag(actions: seq<Action>): nat -> bool {
    (a: nat) => AsksAbout(actions, a)
  }

  /** The steps among those taken that asked about a flag. */
  function FlagsAsked(d: Drive): seq<nat> {
    Filter(d.taken, AboutFlag(d.state.actions))
  }

  lemma OneMoreTaken(s1: State, a: nat, before: seq<nat>, rest: Drive)
    requires a < |s1.actions| && Extends(s1, rest.state) && Joined(s1, Some(a), before, rest).stop == Capped
    ensures var d := Joined(s1, Some(a), before, rest);
            && d.state == rest.state && rest.stop == Capped && !Stalls(s1.actions[a].status)
            && |FlagsAsked(d)| == |FlagsAsked(rest)| + Bit(AsksAbout(s1.actions, a))
  {
    var p := AboutFlag(rest.state.actions);
    FilterConcat([a], rest.taken, p);
    FilterAppend([], a, p);
    assert [] + [a] == [a];
  }

  /** From a case that thirsts, every step asks about a flag. */
  lemma {:induction false} ThirstGoesOn(s: State, turns: seq<Turn>, before: seq<nat>)
    requires Inv(s) && Thirsts(s)
    ensures Driven(s, turns, before).stop == Capped ==> |FlagsAsked(Driven(s, turns, before))| == |turns|
    decreases |turns|
  {
    hide Inv, Advance, Remaining, Extends, Shut, Choose;
    if turns != [] {
      var h, r := Grounds(s).value, Advance(s, turns[0]);
      AdvanceKeeps(s, turns[0]);
      AdvanceTook(s, turns[0], h);
      DrivenJoins(s, turns, before, r);
      if Driven(s, turns, before).stop == Capped {
        var a := r.1.value;
        StillCapped(r.0, turns, a, before);
        MissingStays(s.flags, r.0.flags);
        ThirstGoesOn(r.0, turns[1..], before + [a]);
      }
    }
  }

  lemma MissingStays(flags: seq<Flag>, more: seq<Flag>)
    requires flags <= more && Where(flags, IsMissing) != []
    ensures Where(more, IsMissing) != []
  {
    var f := Where(flags, IsMissing)[0];
    assert f in Where(flags, IsMissing);
    assert f in Where(more, IsMissing);
  }

  lemma StillCapped(s1: State, turns: seq<Turn>, a: nat, before: seq<nat>)
    requires Inv(s1) && turns != [] && a < |s1.actions|
    requires Joined(s1, Some(a), before, Driven(s1, turns[1..], before + [a])).stop == Capped
    ensures var rest := Driven(s1, turns[1..], before + [a]);
            var d := Joined(s1, Some(a), before, rest);
            && d.state == rest.state && rest.stop == Capped && !Stalls(s1.actions[a].status)
            && |FlagsAsked(d)| == |FlagsAsked(rest)| + Bit(AsksAbout(s1.actions, a))
  {
    hide Inv, Extends, FlagsAsked, Driven;
    DrivenExtends(s1, turns[1..], before + [a]);
    OneMoreTaken(s1, a, before, Driven(s1, turns[1..], before + [a]));
  }

  /** A loop cut off asked about a flag at all but a few steps, unless it was short and never thirsted. */
  ghost predicate FewOthers(s: State, d: Drive, h: nat, n: nat) {
    || n <= |FlagsAsked(d)| + Remaining(s.actions, s.impacts, h)
    || n <= Remaining(s.actions, s.impacts, h) + 1 + Bit(FlagPending(s.actions))
  }

  lemma {:induction false} CappedAsksOften(s: State, turns: seq<Turn>, before: seq<nat>, h: nat)
    requires Inv(s) && Grounds(s) == Some(h)
    ensures Driven(s, turns, before).stop == Capped ==> FewOthers(s, Driven(s, turns, before), h, |turns|)
    decreases |turns|
  {
    hide Inv, Advance, Remaining, Extends, Shut, Choose;
    if Thirsts(s) {
      ThirstGoesOn(s, turns, before);
    } else if turns != [] {
      var r := Advance(s, turns[0]);
      AdvanceKeeps(s, turns[0]);
      AdvanceTook(s, turns[0], h);
      DrivenJoins(s, turns, before, r);
      if Driven(s, turns, before).stop == Capped {
        var a := r.1.value;
        StillCapped(r.0, turns, a, before);
        if Shut(r.0) {
          ShutIsNotCapped(r.0, turns[1..], before + [a]);
        } else {
          CappedAsksOften(r.0, turns[1..], before + [a], h);
        }
      }
    }
  }

  lemma ShutIsNotCapped(s: State, turns: seq<Turn>, before: seq<nat>)
    requires Shut(s)
    ensures turns != [] ==> Driven(s, turns, before).stop != Capped
  {
    assert turns != [] ==> Advance(s, turns[0]).1.None?;
  }

  // ----- Without any hypothesis to work from -----

  /** The request made for want of a hypothesis has gone out, and the next decision will come back to it. */
  ghost predicate AskedInGeneral(s: State, r: nat) {
    && First(s.actions, IsLive).None? && Grounds(s).None?
    && First(s.actions, HasKey(KeyOf(NoActiveHypothesis))) == Some(r)
  }

  lemma GeneralReturns(s: State, t: Turn, r: nat)
    requires Safe(s) && AskedInGeneral(s, r)
    ensures Advance(s, t).1 == Some(r)
  {
    hide Safe;
    var calm := s.(reevaluate := false);
    DecideFresh(s, t.scan, t.exposure);
    assert Choose(calm, t.scan) == PlainOffer(NoActiveHypothesis, PendingEvidence);
  }

  lemma AsksInGeneral(s: State, t: Turn)
    requires Safe(s) && First(s.actions, IsLive).None? && Grounds(s).None?
    ensures var (after, a) := Advance(s, t);
            a.Some? && a.value < |after.actions|
              && (Stalls(after.actions[a.value].status) || AskedInGeneral(after, a.value))
  {
    hide Safe, Propose, Execute, ExecuteIfReady, Settled;
    var calm := s.(reevaluate := false);
    var p := Proposal(NoActiveHypothesis, false, Supervisor, Some(PendingEvidence), None);
    DecideFresh(s, t.scan, t.exposure);
    SameSafe(s, calm);
    assert Choose(calm, t.scan) == Offer(p) && Decide(s, t.scan, t.exposure).1 == Some(Propose(calm, p).1);
    AdvanceFrom(s, t, Propose(calm, p).0, Some(Propose(calm, p).1));
    match First(calm.actions, HasKey(KeyOf(p.target))) {
      case Some(e) => OldGeneralRequest(calm, p, e, t);
      case None => NewGeneralRequest(calm, p, t);
    }
  }

  lemma OldGeneralRequest(s: State, p: Proposal, e: nat, t: Turn)
    requires Safe(s) && First(s.actions, IsLive).None? && Grounds(s).None? && Warranted(s, Offer(p))
    requires First(s.actions, HasKey(KeyOf(NoActiveHypothesis))) == Some(e) && p.target == NoActiveHypothesis
    ensures var (s1, a) := Propose(s, p);
            var after := ExecuteIfReady(s1, a, t.connector, t.raised);
            a == e < |after.actions| && AskedInGeneral(after, e)
  {
    hide Safe, Execute, AdvanceStage;
    ExistingIsSettled(s, p, e);
  }

  lemma NewGeneralRequest(s: State, p: Proposal, t: Turn)
    requires Safe(s) && First(s.actions, IsLive).None? && Grounds(s).None? && Warranted(s, Offer(p))
    requires First(s.actions, HasKey(KeyOf(NoActiveHypothesis))).None? && p.target == NoActiveHypothesis
    ensures var (s1, a) := Propose(s, p);
            var after := ExecuteIfReady(s1, a, t.connector, t.raised);
            a < |after.actions| && (Stalls(after.actions[a].status) || AskedInGeneral(after, a))
  {
    hide Safe, Execute, Propose, ExecuteIfReady;
    NewOfferSettles(s, p, t.connector, t.raised);
    var after := ExecuteIfReady(Propose(s, p).0, |s.actions|, t.connector, t.raised);
    var x := after.actions[|s.actions|];
    FirstSnoc(s.actions, x, HasKey(KeyOf(NoActiveHypothesis)));
    FirstAppended(s.actions, x, IsLive);
  }

  lemma AskedAlreadyStops(s: State, turns: seq<Turn>, before: seq<nat>, r: nat)
    requires Safe(s) && AskedInGeneral(s, r) && r in before && turns != []
    ensures Driven(s, turns, before).stop != Capped
  {
    hide Safe, AskedInGeneral;
    GeneralReturns(s, turns[0], r);
  }

  lemma SettledGeneralStops(s: State, turns: seq<Turn>, before: seq<nat>)
    requires Inv(s) && First(s.actions, IsLive).None? && Grounds(s).None? && |turns| >= 2
    ensures Driven(s, turns, before).stop != Capped
  {
    hide Safe, Traced, Led, StoreOk, AskedInGeneral, Advance, Driven, Extends;
    var r := Advance(s, turns[0]);
    AsksInGeneral(s, turns[0]);
    AdvanceKeeps(s, turns[0]);
    DrivenJoins(s, turns, before, r);
    var a := r.1.value;
    if !Stalls(r.0.actions[a].status) {
      AskedAlreadyStops(r.0, turns[1..], before + [a], a);
    }
  }

  lemma LiveThenNone(s: State, t: Turn, a: nat)
    requires Inv(s) && First(s.actions, IsLive) == Some(a) && Grounds(s).None?
    ensures var (after, b) := Advance(s, t);
            b == Some(a) && a < |after.actions| && Grounds(after).None?
            && (Stalls(after.actions[a].status) || First(after.actions, IsLive).None?)
  {
    hide Traced, Led, StoreOk, Decide, ExecuteIfReady;
    DecideLive(s, t.scan, t.exposure);
    var s1 := Decide(s, t.scan, t.exposure).0;
    AdvanceFrom(s, t, s1, Some(a));
    SameSafe(s, s1);
    LiveSettles(s1, a, t.connector, t.raised);
    if ExecuteIfReady(s1, a, t.connector, t.raised).actions[a].status == Succeeded {
      LiveTakesOne(s.actions, a, s.impacts, 0);
    }
  }

  /** Without an active primary, driving soon comes back to the one general request. */
  lemma NoGroundsStops(s: State, turns: seq<Turn>, before: seq<nat>)
    requires Inv(s) && Grounds(s).None? && |turns| >= 3
    ensures Driven(s, turns, before).stop != Capped
  {
    hide Safe, Traced, Led, StoreOk, Advance, Driven, Extends;
    if First(s.actions, IsLive).None? {
      SettledGeneralStops(s, turns, before);
    } else {
      var r, a := Advance(s, turns[0]), First(s.actions, IsLive).value;
      LiveThenNone(s, turns[0], a);
      AdvanceKeeps(s, turns[0]);
      DrivenJoins(s, turns, before, r);
      if !Stalls(r.0.actions[a].status) {
        SettledGeneralStops(r.0, turns[1..], before + [a]);
      }
    }
  }

  // ----- The bound in open flags -----

  lemma AtMostFiveLeft(actions: seq<Action>, impacts: seq<Impact>, h: nat)
    ensures Remaining(actions, impacts, h) <= 4 + Bit(GeneralPending(actions))
  {}

  lemma AskedFlagsExist(s: State, d: Drive)
    requires Safe(d.state) && NoDuplicates(d.taken)
    ensures |FlagsAsked(d)| <= |Where(d.state.flags, IsMissing)|
  {
    var ids := FlagsAsked(d);
    FilterDistinct(d.taken, AboutFlag(d.state.actions));
    FilterMembers(d.taken, AboutFlag(d.state.actions));
    forall k | 0 <= k < |ids|
      ensures AsksAbout(d.state.actions, ids[k]) && d.state.actions[ids[k]].kind == RequestEvidence {
      assert ids[k] in ids;
      assert RowOk(d.state.actions[ids[k]]);
    }
    RequestsWithinFlags(d.state, ids);
  }

  /**
   In any reachable case and with flags listed in any order: a loop cut off by the bound leaves at
   least eight open MISSING flags, or seven if it began with a general request still to be carried
   out. With fewer, driving always ends by itself.
   */
  lemma CutOffTakesEightGaps(caseId: nat, customer: nat, prior: seq<Delivery>, ops: seq<Op>, turns: seq<Turn>)
    requires |turns| == MAX_AUTO_STEPS
    ensures var s := Case(caseId, customer, prior, ops);
            var d := Driven(s, turns, []);
            d.stop == Capped ==> |Where(d.state.flags, IsMissing)| >= 8 - Bit(GeneralPending(s.actions))
  {
    hide Case, Safe, Traced, Led, StoreOk, Driven, Remaining, FlagsAsked, Extends, GeneralPending;
    var s := Case(caseId, customer, prior, ops);
    CaseHolds(caseId, customer, prior, ops);
    var d := Driven(s, turns, []);
    if d.stop == Capped {
      if Grounds(s).None? {
        NoGroundsStops(s, turns, []);
      } else {
        var h := Grounds(s).value;
        CappedAsksOften(s, turns, [], h);
        AtMostFiveLeft(s.actions, s.impacts, h);
        CappedDriveAsks(s, turns, []);
        DrivenExtends(s, turns, []);
        AskedFlagsExist(s, d);
      }
    }
  }
}
