/** Every operation keeps the log in step with the tables. */
module TracedSteps {
  import opened Domain
  import opened Sequences
  import opened AuditReplay
  import opened CaseState
  import opened Approvals
  import opened EvidenceStore
  import opened HypothesisMerge
  import opened HypothesisEngine
  import opened NbaEngine
  import opened Executor
  import opened ActionTable
  import opened ActionSafety
  import opened Tracing

  // ----- Ingestion and reconciliation -----

  lemma IngestIntoTraced(s: State, d: Delivery)
    requires Traced(s)
    ensures Traced(IngestInto(s, d))
  {
    NoteStep(s, s.(evidence := Ingested(s.evidence, d)), None, EvidenceLogged(|s.evidence|));
  }

  lemma {:induction false} IngestAllTraced(s: State, ds: seq<Delivery>)
    requires Traced(s)
    ensures Traced(IngestAll(s, ds))
  {
    if ds != [] {
      IngestAllTraced(s, ds[..|ds| - 1]);
      IngestIntoTraced(IngestAll(s, ds[..|ds| - 1]), ds[|ds| - 1]);
    }
  }

  lemma {:induction false} RecordFlagsTraced(s: State, from: nat, n: nat)
    requires Traced(s)
    ensures Traced(RecordFlags(s, from, n))
  {
    if n > 0 {
      RecordFlagsTraced(s, from, n - 1);
      var s1 := RecordFlags(s, from, n - 1);
      NoteStep(s1, s1, Some(s1.caseId), FlagRaised(from + n - 1));
    }
  }

  lemma ReconciledTraced(s: State, raised: seq<Flag>)
    requires Traced(s)
    ensures Traced(Reconciled(s, raised))
  {
    var s0 := s.(flags := s.flags + raised);
    SilentStep(s, s0);
    RecordFlagsTraced(s0, |s.flags|, |raised|);
    if HasEvidence(s) {
      AdvanceStageTraced(RecordFlags(s0, |s.flags|, |raised|), JourneyAssembled);
    }
  }

  // ----- Hypotheses -----

  lemma CreateTraced(s: State, spec: Spec)
    requires Traced(s)
    ensures Traced(Create(s, spec))
  {
    var after := Create(s, spec);
    if after != s {
      var n := |s.hypotheses|;
      var h := after.hypotheses[n];
      var s1 := s.(hypotheses := after.hypotheses, links := after.links);
      assert LiveHypotheses(s1.hypotheses) == LiveHypotheses(s.hypotheses)[n := (h.category, h.confidence)];
      WriteStep(s, s1, Some(s.caseId), HypothesisCreated(n, h.category, h.confidence));
    }
  }

  lemma {:induction false} CreateAllTraced(s: State, specs: seq<Spec>)
    requires Traced(s)
    ensures Traced(CreateAll(s, specs))
  {
    if specs != [] {
      CreateAllTraced(s, specs[..|specs| - 1]);
      CreateTraced(CreateAll(s, specs[..|specs| - 1]), specs[|specs| - 1]);
    }
  }

  lemma RetireIsSilent(s: State, from: nat, top: nat)
    requires Traced(s)
    ensures Traced(s.(hypotheses := Retire(s.hypotheses, from), primary := Some(top)))
  {
    assert LiveHypotheses(Retire(s.hypotheses, from)) == LiveHypotheses(s.hypotheses);
    SilentStep(s, s.(hypotheses := Retire(s.hypotheses, from), primary := Some(top)));
  }

  /** The reset is audited by its own entry, and never moves the stage forward. */
  lemma TakeOverTraced(s: State, from: nat)
    requires Traced(s) && from < |s.hypotheses|
    ensures Traced(TakeOver(s, from))
    ensures TakeOver(s, from).requests != s.requests + [Ask(FailureLocated)] ==>
        && TakeOver(s, from).stage == FailureLocated
        && Index(FailureLocated) <= Index(AdvanceStage(s, FailureLocated).stage)
  {
    var before, top := s.hypotheses[..from], Best(s.hypotheses, from);
    var s0 := s.(hypotheses := Retire(s.hypotheses, from), primary := Some(top));
    RetireIsSilent(s, from, top);
    AdvanceStageTraced(s0, FailureLocated);
    var s1 := AdvanceStage(s0, FailureLocated);
    ResetKeepsMax(s1.requests);
    var s2 := s1.(reevaluate := true, stage := FailureLocated, requests := s1.requests + [Reset]);
    WriteStep(s1, s2, Some(s1.caseId), ReevaluationTriggered(TopActive(before), s.hypotheses[top].confidence));
  }

  lemma GeneratedTraced(s: State, specs: seq<Spec>)
    requires Traced(s)
    ensures Traced(Generated(s, specs))
  {
    var merged := Merge(specs);
    CreateAllTraced(s, merged);
    var s1 := CreateAll(s, merged);
    if |s1.hypotheses| > |s.hypotheses| {
      TakeOverTraced(s1, |s.hypotheses|);
    }
  }

  // ----- Live views of changed tables -----

  lemma LiveInsert(actions: seq<Action>, x: Action)
    ensures LiveActions(actions + [x]) == LiveActions(actions)[|actions| := HistoryOf(x)]
  {
    var m, n := LiveActions(actions + [x]), LiveActions(actions)[|actions| := HistoryOf(x)];
    assert m.Keys == n.Keys;
    assert forall a: nat | a in m :: m[a] == n[a];
  }

  lemma LiveMove(actions: seq<Action>, a: nat, status: ActionStatus)
    requires a < |actions|
    ensures LiveActions(actions[a := actions[a].(status := status)])
            == LiveActions(actions)[a := HistoryOf(actions[a].(status := status))]
  {
    var m := LiveActions(actions[a := actions[a].(status := status)]);
    var n := LiveActions(actions)[a := HistoryOf(actions[a].(status := status))];
    assert m.Keys == n.Keys;
    assert forall b: nat | b in m :: m[b] == n[b];
  }

  lemma LiveGrant(approvals: seq<Approval>, p: nat, status: ApprovalStatus, user: nat)
    requires p < |approvals| && status != Pending
    ensures LiveApprovals(approvals[p := approvals[p].(status := status, decidedBy := Some(user))])
            == LiveApprovals(approvals)[p := Decision(status == Granted, user)]
  {
    var m := LiveApprovals(approvals[p := approvals[p].(status := status, decidedBy := Some(user))]);
    var n := LiveApprovals(approvals)[p := Decision(status == Granted, user)];
    assert m.Keys == n.Keys;
    assert forall q: nat | q in m :: m[q] == n[q];
  }

  // ----- Deciding -----

  lemma InsertedLive(s: State, p: Proposal, s1: State)
    requires s1 == s.(actions := s.actions + [NewAction(p)],
                      approvals := s.approvals
                        + if p.requiresApproval then [Approval(|s.actions|, p.role, Pending, None)] else [])
    ensures Told(s1) == Fold1(Told(s), ActionLogged(|s.actions|, WasProposed(KindOf(p.target), p.requiresApproval)))
  {
    LiveInsert(s.actions, NewAction(p));
    var proposed := WasProposed(KindOf(p.target), p.requiresApproval);
    assert [] + [proposed] == [proposed] == HistoryOf(NewAction(p));
    assert LiveApprovals(s1.approvals) == LiveApprovals(s.approvals);
  }

  /** A new row starts out in step, and disturbs no other. */
  lemma InsertedCoherent(s: State, p: Proposal, s1: State)
    requires Coherent(s.actions, s.approvals)
    requires s1.actions == s.actions + [NewAction(p)]
    requires s1.approvals == s.approvals + if p.requiresApproval then [Approval(|s.actions|, p.role, Pending, None)]
             else []
    ensures Coherent(s1.actions, s1.approvals)
  {
    hide First;
    forall a: nat | a < |s1.actions| ensures InStep(s1.actions[a], DecisionOn(s1.approvals, a)) {
      if p.requiresApproval {
        FirstSnoc(s.approvals, Approval(|s.actions|, p.role, Pending, None), Concerning(a));
      } else {
        assert s1.approvals == s.approvals;
      }
    }
  }

  lemma InsertTraced(s: State, p: Proposal)
    requires Traced(s)
    ensures Traced(Insert(s, p))
  {
    hide Told, Mirrored, EntryOk, Replayed;
    var n := |s.actions|;
    var s1 := s.(actions := s.actions + [NewAction(p)],
                 approvals := s.approvals + if p.requiresApproval then [Approval(n, p.role, Pending, None)] else []);
    InsertedLive(s, p, s1);
    InsertedCoherent(s, p, s1);
    WriteStep(s, s1, Some(s.caseId), ActionLogged(n, WasProposed(KindOf(p.target), p.requiresApproval)));
  }

  lemma PreparedTraced(s: State, p: Proposal)
    requires Traced(s) && (p.stage.Some? ==> p.stage.value != ActionsCoordinated && p.stage.value != CustomerUpdated)
    ensures Traced(Prepared(s, p))
  {
    var s1 := if p.status.Some? then s.(status := p.status.value) else s;
    SilentStep(s, s1);
    if p.stage.Some? {
      AdvanceStageTraced(s1, p.stage.value);
    }
  }

  lemma ProposeTraced(s: State, p: Proposal)
    requires Traced(s) && (p.stage.Some? ==> p.stage.value != ActionsCoordinated && p.stage.value != CustomerUpdated)
    ensures Traced(Propose(s, p).0)
  {
    PreparedTraced(s, p);
    InsertTraced(Prepared(s, p), p);
  }

  /** Marking an inline action done is not logged as an action event: the log goes on telling it as proposed. */
  lemma InlineDoneIsSilent(s: State, a: nat)
    requires Traced(s) && a < |s.actions|
    requires s.actions[a].status == Proposed && IsInline(s.actions[a].kind)
    ensures Traced(SetStatus(s, a, Succeeded))
  {
    var after := SetStatus(s, a, Succeeded);
    LiveMove(s.actions, a, Succeeded);
    assert LiveActions(after.actions) == LiveActions(s.actions);
    SilentStep(s, after);
  }

  lemma AnalysedTraced(s: State, h: nat, exposure: nat)
    requires Traced(s) && First(s.actions, HasKey(KeyOf(ImpactOf(h)))).None?
    ensures Traced(Analysed(s, h, exposure).0)
  {
    var p := Proposal(ImpactOf(h), false, Supervisor, Some(Investigating), None);
    ProposeTraced(s, p);
    var (s1, a) := Propose(s, p);
    NoteStep(s1, s1.(impacts := s1.impacts + [Impact(h, exposure)]), Some(s1.caseId), ImpactComputed(|s1.impacts|));
    var s2 := Record(s1.(impacts := s1.impacts + [Impact(h, exposure)]), ImpactComputed(|s1.impacts|));
    AdvanceStageTraced(s2, ImpactAssessed);
    InlineDoneIsSilent(AdvanceStage(s2, ImpactAssessed), a);
  }

  lemma ClosedOutTraced(s: State, h: nat)
    requires Traced(s) && First(s.actions, HasKey(KeyOf(Closure(h)))).None?
    ensures Traced(ClosedOut(s, h).0)
  {
    var p := Proposal(Closure(h), false, Supervisor, None, None);
    ProposeTraced(s, p);
    CloseInline(Propose(s, p).0, |s.actions|);
  }

  lemma CloseInline(s: State, a: nat)
    requires Traced(s) && a < |s.actions|
    requires s.actions[a].status == Proposed && IsInline(s.actions[a].kind)
    ensures Traced(Record(SetStatus(AdvanceStage(s.(status := Closed), OutcomeRetained), a, Succeeded), CaseClosed))
  {
    SilentStep(s, s.(status := Closed));
    AdvanceStageTraced(s.(status := Closed), OutcomeRetained);
    var s2 := AdvanceStage(s.(status := Closed), OutcomeRetained);
    InlineDoneIsSilent(s2, a);
    var s3 := SetStatus(s2, a, Succeeded);
    NoteStep(s3, s3, Some(s3.caseId), CaseClosed);
  }

  lemma FreshKeys(s: State, choice: Choice)
    requires Safe(s) && Warranted(s, choice)
    ensures choice.Analyse? ==> First(s.actions, HasKey(KeyOf(ImpactOf(choice.hypothesis)))).None?
    ensures choice.Close? ==> First(s.actions, HasKey(KeyOf(Closure(choice.hypothesis)))).None?
  {
    hide PairOk, CausesOk, TraceOk, ApprovalOk;
    assert forall i | 0 <= i < |s.actions| :: RowOk(s.actions[i]);
  }

  lemma OfferStages(s: State, scan: nat)
    ensures var c := Choose(s, scan);
            c.Offer? && c.proposal.stage.Some? ==>
              c.proposal.stage.value == EvidenceChecked || c.proposal.stage.value == RecoveryOptionsRanked
  {}

  lemma DecideTraced(s: State, scan: nat, exposure: nat)
    requires Traced(s) && Safe(s)
    ensures Traced(Decide(s, scan, exposure).0)
  {
    hide Choose;
    var live := First(s.actions, IsLive);
    if live.Some? {
      NoteStep(s, s, Some(s.caseId), ReevaluationDeferred(live.value));
    } else {
      var s1 := s.(reevaluate := false);
      SilentStep(s, s1);
      ChoiceWarranted(s1, scan);
      OfferStages(s1, scan);
      FreshKeys(s1, Choose(s1, scan));
      match Choose(s1, scan) {
        case Offer(p) => ProposeTraced(s1, p);
        case Analyse(h) => AnalysedTraced(s1, h, exposure);
        case Close(h) => ClosedOutTraced(s1, h);
        case Exhausted(h) => NoteStep(s1, s1, Some(s1.caseId), OptionsExhausted(h));
        case Nothing =>
      }
    }
  }

  // ----- Executing -----

  lemma StartedTraced(s: State, a: nat)
    requires Traced(s) && Safe(s) && a < |s.actions|
    requires s.actions[a].status == Proposed || s.actions[a].status == Approved
    ensures Traced(Started(s, a))
  {
    hide Mirrored, EntryOk, Replayed, Safe, StageIsMax;
    var after := SetStatus(s, a, Executing);
    LiveMove(s.actions, a, Executing);
    assert HistoryOf(after.actions[a]) == HistoryOf(s.actions[a]) + [WasExecuting];
    StartIsGranted(s, a, after);
    MovedCoherent(s, a, Executing);
    WriteStep(s, after, Some(s.caseId), ActionLogged(a, WasExecuting));
  }

  lemma StartIsGranted(s: State, a: nat, after: State)
    requires Traced(s) && Safe(s) && a < |s.actions| && after == SetStatus(s, a, Executing)
    requires s.actions[a].status == Proposed || s.actions[a].status == Approved
    ensures EntryOk(Record(after, ActionLogged(a, WasExecuting)), |s.log|)
  {
    var w := Record(after, ActionLogged(a, WasExecuting));
    assert w.log[..|s.log|] == s.log;
    if s.actions[a].requiresApproval {
      var p := ReadyIsGranted(s, a);
      assert w.approvals[p].action == a && p in Replayed(w.log[..|s.log|], w.caseId).approvals;
    }
  }

  lemma ReadyIsGranted(s: State, a: nat) returns (p: nat)
    requires Safe(s) && a < |s.actions| && s.actions[a].requiresApproval
    requires s.actions[a].status == Proposed || s.actions[a].status == Approved
    ensures p < |s.approvals| && s.approvals[p].action == a
    ensures p in LiveApprovals(s.approvals) && LiveApprovals(s.approvals)[p].granted
  {
    hide ExecutionsOk, ImpactsOk, PairOk, CausesOk;
    assert RowOk(s.actions[a]) && HasApproval(s.approvals, a);
    p :| 0 <= p < |s.approvals| && s.approvals[p].action == a;
    assert ApprovalOk(s.actions, s.approvals[p]);
  }

  lemma {:induction false} AttemptsTraced(s: State, a: nat, c: Connector, attempt: nat)
    requires Traced(s) && 1 <= attempt <= MAX_ATTEMPTS
    ensures Traced(Attempts(s, a, c, attempt))
    decreases MAX_ATTEMPTS - attempt
  {
    hide Traced;
    var s1 := s.(executions := s.executions + [Execution(a, attempt, StatusOf(c, attempt))]);
    TracedIsCoherent(s);
    NoteStep(s, s1, Some(s.caseId), AttemptLogged(a, attempt, StatusOf(c, attempt)));
    if !Succeeds(c, attempt) && attempt < MAX_ATTEMPTS {
      AttemptsTraced(Try(s, a, c, attempt), a, c, attempt + 1);
    }
  }

  lemma AbsorbTraced(s: State, evidence: seq<Delivery>, raised: seq<Flag>)
    requires Traced(s)
    ensures Traced(AbsorbEvidence(s, evidence, raised))
  {
    if evidence != [] {
      IngestAllTraced(s, Filed(s.customer, evidence));
      ReconciledTraced(IngestAll(s, Filed(s.customer, evidence)), raised);
    }
  }

  /** The end of an execution, with no stage entry in between: the row and its entry move together. */
  lemma FinishTraced(s: State, a: nat, status: ActionStatus)
    requires Traced(s) && a < |s.actions| && s.actions[a].status == Executing && !IsInline(s.actions[a].kind)
    requires status == Succeeded || status == Failed || status == NeedsManualReview
    ensures Traced(Record(SetStatus(s, a, status), ActionLogged(a, HasFinished(status))))
    ensures Told(SetStatus(s, a, status)) == Fold1(Told(s), ActionLogged(a, HasFinished(status)))
  {
    var after := SetStatus(s, a, status);
    LiveMove(s.actions, a, status);
    assert HistoryOf(after.actions[a]) == HistoryOf(s.actions[a]) + [HasFinished(status)];
    MovedCoherent(s, a, status);
    WriteStep(s, after, Some(s.caseId), ActionLogged(a, HasFinished(status)));
  }

  /** Once execution has begun, no decision is at stake any more. */
  lemma MovedCoherent(s: State, a: nat, status: ActionStatus)
    requires Coherent(s.actions, s.approvals) && a < |s.actions|
    requires status == Executing || status == Succeeded || status == Failed || status == NeedsManualReview
    ensures Coherent(SetStatus(s, a, status).actions, s.approvals)
  {
    hide DecisionOn;
  }

  /** With the stage entry in between: that entry is written ahead, the next one catches up. */
  lemma FinishAheadTraced(s: State, a: nat, status: ActionStatus, stage: Stage)
    requires Traced(s) && a < |s.actions| && s.actions[a].status == Executing && !IsInline(s.actions[a].kind)
    requires status == Succeeded || status == NeedsManualReview
    requires stage == ActionsCoordinated || stage == CustomerUpdated
    ensures Traced(Record(AdvanceStage(SetStatus(s, a, status), stage), ActionLogged(a, HasFinished(status))))
  {
    hide Traced, Mirrored, HistoryOf, LiveActions;
    TracedIsCoherent(s);
    TracedStage(s);
    AskKeepsMax(s.requests, s.stage, stage);
    var asked := s.(requests := s.requests + [Ask(stage)]);
    if Index(stage) <= Index(s.stage) {
      SilentStep(s, asked);
      FinishTraced(asked, a, status);
    } else {
      FinishMovingStage(s, a, status, stage, asked.requests);
    }
  }

  lemma FinishMovingStage(s: State, a: nat, status: ActionStatus, stage: Stage, requests: seq<StageRequest>)
    requires Traced(s) && a < |s.actions| && s.actions[a].status == Executing && !IsInline(s.actions[a].kind)
    requires status == Succeeded || status == NeedsManualReview
    requires stage == ActionsCoordinated || stage == CustomerUpdated
    requires StageIsMax(requests, stage)
    ensures var moved := SetStatus(s, a, status).(requests := requests, stage := stage);
            Traced(Record(Record(moved, StageAdvanced(s.stage, stage)), ActionLogged(a, HasFinished(status))))
  {
    hide Traced, Mirrored, HistoryOf, LiveActions, LiveHypotheses, LiveApprovals, StageIsMax;
    FinishTraced(s, a, status);
    TracedIsCoherent(s);
    MovedCoherent(s, a, status);
    var moved := SetStatus(s, a, status).(requests := requests, stage := stage);
    AheadStep(s, moved, StageAdvanced(s.stage, stage), ActionLogged(a, HasFinished(status)));
  }

  /** Writing two entries leaves the earlier ones mirrored and in order. */
  lemma EarlierStay(s: State, k: nat, first: Event, second: Event)
    requires |s.log| == |s.snapshots| && k < |s.log| && Mirrored(s.log, s.snapshots, s.caseId, k) && EntryOk(s, k)
    ensures var w := Record(Record(s, first), second); Mirrored(w.log, w.snapshots, w.caseId, k) && EntryOk(w, k)
  {
    hide Mirrored, EntryOk;
    var e1, e2, s1 := Entry(Some(s.caseId), first), Entry(Some(s.caseId), second), Record(s, first);
    MirroredStays(s, k, e1, PictureOf(s));
    assert s1.log == s.log + [e1] && s1.snapshots == s.snapshots + [PictureOf(s)];
    MirroredStays(s1, k, e2, PictureOf(s1));
    EntryStays(s, k, Some(s.caseId), first);
    EntryStays(s1, k, Some(s.caseId), second);
  }

  /**
   Of two entries that together account for the tables, the first is mirrored as written ahead, the
   second plainly.
   */
  lemma TwoMirrored(log: seq<Entry>, snapshots: seq<Picture>, caseId: nat, e1: Entry, e2: Entry, p: Picture)
    requires |log| == |snapshots| && WrittenAhead(e1, caseId) && Finishes(e2, caseId)
    requires Shown(p) == Fold1(Fold1(Replayed(log, caseId), e1.event), e2.event)
    ensures Replayed(log + [e1] + [e2], caseId) == Shown(p)
    ensures Mirrored(log + [e1] + [e2], snapshots + [p] + [p], caseId, |log|)
    ensures Mirrored(log + [e1] + [e2], snapshots + [p] + [p], caseId, |log| + 1)
  {
    hide Shown;
    ReplayedSnoc(log, e1, caseId);
    ReplayedSnoc(log + [e1], e2, caseId);
    var both := log + [e1] + [e2];
    assert both[..|log| + 2] == both;
  }

  lemma TwoPlainEntries(s: State, first: Event, second: Event)
    requires Plain(first) && Plain(second)
    ensures var w := Record(Record(s, first), second); EntryOk(w, |s.log|) && EntryOk(w, |s.log| + 1)
  {
    hide GrantedBefore, PictureOf;
  }

  /** Two entries after one change: the first is written ahead of the second. */
  lemma AheadStep(s: State, after: State, first: Event, second: Event)
    requires Traced(s) && Grown(s, after) && StageIsMax(after.requests, after.stage)
    requires WrittenAhead(Entry(Some(s.caseId), first), s.caseId) && Finishes(Entry(Some(s.caseId), second), s.caseId)
    requires Told(after) == Fold1(Fold1(Told(s), first), second) && Coherent(after.actions, after.approvals)
    ensures Traced(Record(Record(after, first), second))
  {
    hide Mirrored, EntryOk, Coherent, StageIsMax, Shown, Replayed;
    var e1, e2, n := Entry(Some(s.caseId), first), Entry(Some(s.caseId), second), |s.log|;
    var w := Record(Record(after, first), second);
    GrownKeepsEntries(s, after);
    TwoMirrored(s.log, s.snapshots, s.caseId, e1, e2, PictureOf(after));
    TwoPlainEntries(after, first, second);
    assert w.log == s.log + [e1] + [e2] && w.snapshots == s.snapshots + [PictureOf(after)] + [PictureOf(after)];
    forall k | 0 <= k < |w.log| ensures Mirrored(w.log, w.snapshots, w.caseId, k) && EntryOk(w, k) {
      if k < n {
        EarlierStay(after, k, first, second);
      }
    }
  }

  lemma ExecuteTraced(s: State, a: nat, c: Connector, raised: seq<Flag>)
    requires Traced(s) && Safe(s) && a < |s.actions|
    requires s.actions[a].status == Proposed || s.actions[a].status == Approved
    ensures Traced(Execute(s, a, c, raised))
  {
    hide Traced;
    ReadyRunsNow(s, a);
    assert RowOk(s.actions[a]);
    StartedTraced(s, a);
    AttemptsTraced(Started(s, a), a, c, 1);
    SettledTraced(Attempts(Started(s, a), a, c, 1), a, c, raised);
  }

  lemma SettledTraced(s: State, a: nat, c: Connector, raised: seq<Flag>)
    requires Traced(s) && a < |s.actions| && s.actions[a].status == Executing && !IsInline(s.actions[a].kind)
    ensures Traced(Record(Settled(s, a, c, raised), ActionLogged(a, HasFinished(FinalStatus(c)))))
  {
    var last := On(c, Made(c, 1));
    if last.Answered? && last.success {
      AbsorbTraced(s, last.evidence, raised);
      var s1 := AbsorbEvidence(s, last.evidence, raised);
      var stage := StageOnSuccess(s.actions[a].kind);
      if stage.Some? {
        FinishAheadTraced(s1, a, FinalStatus(c), stage.value);
      } else {
        FinishTraced(s1, a, FinalStatus(c));
      }
    } else {
      FinishTraced(s, a, Failed);
    }
  }

  // ----- Approving -----

  /** The approval decided is the only one of its action, so action and decision stay in step. */
  lemma DecisionCoherent(s: State, p: nat, after: State)
    requires Coherent(s.actions, s.approvals) && ApprovalsOk(s.actions, s.approvals)
             && p < |s.approvals| == |after.approvals|
    requires var a := s.approvals[p].action;
      && a < |s.actions| == |after.actions| && s.actions[a].requiresApproval
      && after.actions == s.actions[a := s.actions[a].(status := after.actions[a].status)]
      && after.approvals == s.approvals[p := after.approvals[p]] && after.approvals[p].action == a
      && after.approvals[p].status != Pending && after.approvals[p].decidedBy.Some?
      && after.actions[a].status == if after.approvals[p].status == Granted then Approved else Rejected
    ensures Coherent(after.actions, after.approvals)
  {
    hide ApprovalOk, HasApproval;
    forall b: nat | b < |after.actions| ensures InStep(after.actions[b], DecisionOn(after.approvals, b)) {
      assert InStep(s.actions[b], DecisionOn(s.approvals, b));
      FirstConcerning(s.approvals, after.approvals, b);
    }
  }

  lemma FirstConcerning(approvals: seq<Approval>, after: seq<Approval>, a: nat)
    requires |approvals| == |after| && forall p | 0 <= p < |approvals| :: after[p].action == approvals[p].action
    ensures First(after, Concerning(a)) == First(approvals, Concerning(a))
  {
    var x, y := First(approvals, Concerning(a)), First(after, Concerning(a));
    if x.Some? { assert Concerning(a)(after[x.value]); }
    if y.Some? { assert Concerning(a)(approvals[y.value]); }
  }

  lemma DecidedTraced(s: State, p: nat, decision: ApprovalStatus, user: User)
    requires Traced(s) && Safe(s) && p < |s.approvals| && Decided(s, p, decision, user).Success?
    ensures Traced(Decided(s, p, decision, user).value)
  {
    hide Mirrored, EntryOk, Replayed, TableOk, ExecutionsOk, ImpactsOk, Coherent, StageIsMax;
    var a, granted := s.approvals[p].action, decision == Granted;
    assert ApprovalOk(s.actions, s.approvals[p]);
    var status := if granted then Approved else Rejected;
    var after := SetStatus(s.(approvals := s.approvals[p := s.approvals[p].(status := decision,
      decidedBy := Some(user.id))]), a, status);
    LiveMove(s.actions, a, status);
    assert LiveActions(after.actions) == LiveActions(s.actions);
    LiveGrant(s.approvals, p, decision, user.id);
    DecisionCoherent(s, p, after);
    DecisionIsPermitted(after, p, granted, user);
    WriteStep(s, after, Some(s.caseId), ApprovalDecided(p, granted, user.id, user.role));
  }

  lemma DecisionIsPermitted(s: State, p: nat, granted: bool, user: User)
    requires p < |s.approvals| && Permits(s.approvals[p].requiredRole, user.role)
    ensures EntryOk(Record(s, ApprovalDecided(p, granted, user.id, user.role)), |s.log|)
  {}

  /** Entries of other cases and of nobody's. */
  lemma ForeignTraced(s: State, owner: Option<nat>, event: Event)
    requires Traced(s) && owner != Some(s.caseId)
    ensures Traced(Write(s, owner, event))
  {
    assert EntryOk(Write(s, owner, event), |s.log|);
    WriteStep(s, s, owner, event);
  }
}
