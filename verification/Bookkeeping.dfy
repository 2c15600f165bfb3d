/**
 What the audit log accounts for beyond what replay reads: every move of the stage, and one entry for
 every tool execution, impact assessment and flag, in the order of their tables.
 */
module Bookkeeping {
  import opened Domain
  import opened Sequences
  import opened CaseState
  import opened EvidenceStore
  import opened HypothesisMerge
  import opened HypothesisEngine
  import opened NbaEngine
  import opened Executor
  import opened Approvals
  import opened Runs

  // ----- The stage, entry by entry -----

  function StageBefore(snapshots: seq<Picture>, k: nat): Stage
    requires k <= |snapshots|
  {
    if k == 0 then IssueReported else snapshots[k - 1].stage
  }

  /** What an entry may do to the stage: only these two sorts move it, one of them forward. */
  predicate MovesStage(before: Stage, e: Entry, caseId: nat, after: Stage) {
    if e.owner == Some(caseId) && e.event.StageAdvanced? then
      e.event.from == before && e.event.to == after && Earlier(before, after)
    else if e.owner == Some(caseId) && e.event.ReevaluationTriggered? then
      after == FailureLocated
    else
      after == before
  }

  /** The stage changes only with an entry that says so. */
  ghost predicate Chronicled(s: State) {
    && |s.log| == |s.snapshots|
    && (forall k | 0 <= k < |s.log| ::
          MovesStage(StageBefore(s.snapshots, k), s.log[k], s.caseId, s.snapshots[k].stage))
    && s.stage == StageBefore(s.snapshots, |s.snapshots|)
  }

  // ----- The accounts -----

  datatype Account = Account(executions: seq<Execution>, impacts: seq<nat>, flags: seq<nat>)

  function Entered(a: Account, e: Event): Account {
    match e
    case AttemptLogged(action, attempt, status) =>
      a.(executions := a.executions + [Execution(action, attempt, status)])
    case ImpactComputed(i) => a.(impacts := a.impacts + [i])
    case FlagRaised(f) => a.(flags := a.flags + [f])
    case _ => a
  }

  /** The executions, impacts and flags the case's entries speak of, in the order of writing. */
  function AccountOf(log: seq<Entry>, caseId: nat): Account {
    if log == [] then Account([], [], [])
    else
      var a, last := AccountOf(log[..|log| - 1], caseId), log[|log| - 1];
      if last.owner == Some(caseId) then Entered(a, last.event) else a
  }

  function UpTo(n: nat): seq<nat> {
    seq(n, i => i)
  }

  /** What the tables hold: every execution as it is, and the ids of the other two. */
  function TablesOf(s: State): Account {
    Account(s.executions, UpTo(|s.impacts|), UpTo(|s.flags|))
  }

  ghost predicate Booked(s: State) {
    Chronicled(s) && AccountOf(s.log, s.caseId) == TablesOf(s)
  }

  // ----- Writing -----

  lemma WritingChronicles(s: State, t: State, owner: Option<nat>, event: Event)
    requires Chronicled(s) && t.caseId == s.caseId && t.log == s.log && t.snapshots == s.snapshots
    requires MovesStage(s.stage, Entry(owner, event), s.caseId, t.stage)
    ensures Chronicled(Write(t, owner, event))
    ensures AccountOf(Write(t, owner, event).log, s.caseId) ==
              var a := AccountOf(s.log, s.caseId); if owner == Some(s.caseId) then Entered(a, event) else a
  {
    hide MovesStage, Entered;
    var w := Write(t, owner, event);
    assert w.log[..|s.log|] == s.log;
    forall k | 0 <= k < |w.log|
      ensures MovesStage(StageBefore(w.snapshots, k), w.log[k], w.caseId, w.snapshots[k].stage)
    {
      assert StageBefore(w.snapshots, k) == StageBefore(s.snapshots, k);
    }
  }

  /** An entry that accounts for what changed in the tables. */
  lemma WritingBooks(s: State, t: State, owner: Option<nat>, event: Event)
    requires Booked(s) && t.caseId == s.caseId && t.log == s.log && t.snapshots == s.snapshots
    requires MovesStage(s.stage, Entry(owner, event), s.caseId, t.stage)
    requires TablesOf(t) == if owner == Some(s.caseId) then Entered(TablesOf(s), event) else TablesOf(s)
    ensures Booked(Write(t, owner, event))
  {
    hide Chronicled, MovesStage, Entered, AccountOf;
    WritingChronicles(s, t, owner, event);
  }

  /** An entry about nothing the accounts or the stage hold. */
  predicate IsAside(event: Event) {
    && !event.AttemptLogged? && !event.ImpactComputed? && !event.FlagRaised?
    && !event.StageAdvanced? && !event.ReevaluationTriggered?
  }

  lemma AsideBooks(s: State, t: State, event: Event)
    requires Booked(s) && IsAside(event) && SameBooks(s, t)
    ensures Booked(Record(t, event))
  {
    hide Chronicled, AccountOf;
    WritingBooks(s, t, Some(s.caseId), event);
  }

  ghost predicate SameBooks(s: State, t: State) {
    && t.caseId == s.caseId && t.log == s.log && t.snapshots == s.snapshots && t.stage == s.stage
    && t.executions == s.executions && |t.impacts| == |s.impacts| && |t.flags| == |s.flags|
  }

  lemma SameStaysBooked(s: State, t: State)
    requires Booked(s) && SameBooks(s, t)
    ensures Booked(t)
  {}

  lemma AdvancingChronicles(s: State, stage: Stage)
    requires Chronicled(s)
    ensures var t := AdvanceStage(s, stage);
            Chronicled(t) && AccountOf(t.log, s.caseId) == AccountOf(s.log, s.caseId)
  {
    hide AccountOf;
    EarlierIs(s.stage, stage);
    if Index(stage) > Index(s.stage) {
      var asked := s.(requests := s.requests + [Ask(stage)]);
      WritingChronicles(s, asked.(stage := stage), Some(s.caseId), StageAdvanced(s.stage, stage));
    }
  }

  lemma AdvancingBooks(s: State, stage: Stage)
    requires Booked(s)
    ensures Booked(AdvanceStage(s, stage))
  {
    hide Chronicled, AccountOf;
    AdvancingChronicles(s, stage);
  }

  // ----- Evidence and flags -----

  lemma IngestingBooks(s: State, d: Delivery)
    requires Booked(s)
    ensures Booked(IngestInto(s, d))
  {
    hide Chronicled, AccountOf;
    WritingBooks(s, s.(evidence := Ingested(s.evidence, d)), None, EvidenceLogged(|s.evidence|));
  }

  lemma {:induction false} IngestingAllBooks(s: State, ds: seq<Delivery>)
    requires Booked(s)
    ensures Booked(IngestAll(s, ds))
  {
    hide Booked, IngestInto;
    if ds != [] {
      IngestingAllBooks(s, ds[..|ds| - 1]);
      IngestingBooks(IngestAll(s, ds[..|ds| - 1]), ds[|ds| - 1]);
    }
  }

  lemma {:induction false} RaisingChronicles(s: State, from: nat, n: nat)
    requires Chronicled(s)
    ensures var t, a := RecordFlags(s, from, n), AccountOf(s.log, s.caseId);
            Chronicled(t) && AccountOf(t.log, s.caseId) == a.(flags := a.flags + seq(n, i => from + i))
  {
    hide Chronicled, AccountOf;
    var a := AccountOf(s.log, s.caseId);
    if n == 0 {
      assert a.flags + seq(n, i => from + i) == a.flags;
    } else {
      RaisingChronicles(s, from, n - 1);
      var t := RecordFlags(s, from, n - 1);
      WritingChronicles(t, t, Some(s.caseId), FlagRaised(from + n - 1));
      assert seq(n, i => from + i) == seq(n - 1, i => from + i) + [from + n - 1];
      assert a.flags + seq(n, i => from + i) == a.flags + seq(n - 1, i => from + i) + [from + n - 1];
    }
  }

  lemma FlagsAddUp(n: nat, m: nat)
    ensures UpTo(n) + seq(m, i => n + i) == UpTo(n + m)
  {}

  lemma ReconcilingBooks(s: State, raised: seq<Flag>)
    requires Booked(s)
    ensures Booked(Reconciled(s, raised))
  {
    hide AccountOf, AdvanceStage, HasEvidence;
    var flagged := s.(flags := s.flags + raised);
    assert Chronicled(flagged);
    RaisingChronicles(flagged, |s.flags|, |raised|);
    FlagsAddUp(|s.flags|, |raised|);
    var s1 := RecordFlags(flagged, |s.flags|, |raised|);
    AdvancingBooks(s1, JourneyAssembled);
  }

  // ----- Hypotheses -----

  lemma CreatingBooks(s: State, spec: Spec)
    requires Booked(s)
    ensures Booked(Create(s, spec))
  {
    hide Booked, LinksFor, ValidIds;
    if ValidIds(s.evidence, s.customer, spec.supports) != [] {
      var t := Create(s, spec);
      var last := t.hypotheses[|s.hypotheses|];
      AsideBooks(s, s.(hypotheses := t.hypotheses, links := t.links),
        HypothesisCreated(|s.hypotheses|, spec.category, last.confidence));
    }
  }

  lemma {:induction false} CreatingAllBooks(s: State, specs: seq<Spec>)
    requires Booked(s)
    ensures Booked(CreateAll(s, specs))
  {
    hide Booked, Create;
    if specs != [] {
      CreatingAllBooks(s, specs[..|specs| - 1]);
      CreatingBooks(CreateAll(s, specs[..|specs| - 1]), specs[|specs| - 1]);
    }
  }

  lemma TakingOverBooks(s: State, from: nat)
    requires Booked(s) && from < |s.hypotheses|
    ensures Booked(TakeOver(s, from))
  {
    hide Booked, AdvanceStage, Best, Retire, TopActive, Gap;
    var before, top := s.hypotheses[..from], Best(s.hypotheses, from);
    var s0 := s.(hypotheses := Retire(s.hypotheses, from), primary := Some(top));
    SameStaysBooked(s, s0);
    AdvancingBooks(s0, FailureLocated);
    var s1 := AdvanceStage(s0, FailureLocated);
    ResettingBooks(s1, TopActive(before), s.hypotheses[top].confidence);
  }

  lemma ResettingBooks(s: State, previous: nat, now: nat)
    requires Booked(s)
    ensures Booked(Record(s.(reevaluate := true, stage := FailureLocated, requests := s.requests + [Reset]),
                          ReevaluationTriggered(previous, now)))
  {
    hide AccountOf, Chronicled;
    WritingBooks(s, s.(reevaluate := true, stage := FailureLocated, requests := s.requests + [Reset]), Some(s.caseId),
      ReevaluationTriggered(previous, now));
  }

  lemma GeneratingBooks(s: State, specs: seq<Spec>)
    requires Booked(s)
    ensures Booked(Generated(s, specs))
  {
    hide Booked, CreateAll, TakeOver, Merge, HasEvidence;
    CreatingAllBooks(s, Merge(specs));
    var s1 := CreateAll(s, Merge(specs));
    if |s1.hypotheses| > |s.hypotheses| {
      TakingOverBooks(s1, |s.hypotheses|);
    }
  }

  // ----- Decisions -----

  lemma ProposingBooks(s: State, p: Proposal)
    requires Booked(s)
    ensures Booked(Propose(s, p).0)
  {
    hide Booked, AdvanceStage;
    var s1 := if p.status.Some? then s.(status := p.status.value) else s;
    SameStaysBooked(s, s1);
    if p.stage.Some? {
      AdvancingBooks(s1, p.stage.value);
    }
    InsertingBooks(Prepared(s, p), p);
  }

  lemma InsertingBooks(s: State, p: Proposal)
    requires Booked(s)
    ensures Booked(Insert(s, p))
  {
    hide Booked;
    var t := Insert(s, p);
    AsideBooks(s, s.(actions := t.actions, approvals := t.approvals),
      ActionLogged(|s.actions|, WasProposed(KindOf(p.target), p.requiresApproval)));
  }

  lemma AnalysingBooks(s: State, h: nat, exposure: nat)
    requires Booked(s)
    ensures Booked(Analysed(s, h, exposure).0)
  {
    hide Booked, AdvanceStage, Propose;
    var p := Proposal(ImpactOf(h), false, Supervisor, Some(Investigating), None);
    ProposingBooks(s, p);
    var (s1, a) := Propose(s, p);
    AssessingBooks(s1, Impact(h, exposure));
    var s2 := Record(s1.(impacts := s1.impacts + [Impact(h, exposure)]), ImpactComputed(|s1.impacts|));
    AdvancingBooks(s2, ImpactAssessed);
    SameStaysBooked(AdvanceStage(s2, ImpactAssessed), Analysed(s, h, exposure).0);
  }

  lemma AssessingBooks(s: State, i: Impact)
    requires Booked(s)
    ensures Booked(Record(s.(impacts := s.impacts + [i]), ImpactComputed(|s.impacts|)))
  {
    hide Chronicled, AccountOf;
    assert UpTo(|s.impacts| + 1) == UpTo(|s.impacts|) + [|s.impacts|];
    WritingBooks(s, s.(impacts := s.impacts + [i]), Some(s.caseId), ImpactComputed(|s.impacts|));
  }

  lemma ProposalAnswersRow(s: State, p: Proposal)
    ensures Propose(s, p).1 < |Propose(s, p).0.actions|
  {
    hide AdvanceStage;
  }

  lemma ClosingBooks(s: State, h: nat)
    requires Booked(s)
    ensures Booked(ClosedOut(s, h).0)
  {
    hide Booked, AdvanceStage, Propose;
    var p := Proposal(Closure(h), false, Supervisor, None, None);
    ProposingBooks(s, p);
    ProposalAnswersRow(s, p);
    var (s1, a) := Propose(s, p);
    if s1.actions[a].status != Succeeded {
      SameStaysBooked(s1, s1.(status := Closed));
      AdvancingBooks(s1.(status := Closed), OutcomeRetained);
      var s2 := AdvanceStage(s1.(status := Closed), OutcomeRetained);
      AsideBooks(s2, SetStatus(s2, a, Succeeded), CaseClosed);
    }
  }

  lemma DecidingBooks(s: State, scan: nat, exposure: nat)
    requires Booked(s)
    ensures Booked(Decide(s, scan, exposure).0)
  {
    hide Booked, Choose, Propose, Analysed, ClosedOut;
    var live := First(s.actions, IsLive);
    if live.Some? {
      AsideBooks(s, s, ReevaluationDeferred(live.value));
    } else {
      var s1 := s.(reevaluate := false);
      SameStaysBooked(s, s1);
      match Choose(s1, scan) {
        case Offer(p) => ProposingBooks(s1, p);
        case Analyse(h) => AnalysingBooks(s1, h, exposure);
        case Close(h) => ClosingBooks(s1, h);
        case Exhausted(h) => AsideBooks(s1, s1, OptionsExhausted(h));
        case Nothing =>
      }
    }
  }

  // ----- Executions and approvals -----

  lemma TryingBooks(s: State, a: nat, c: Connector, attempt: nat)
    requires Booked(s)
    ensures Booked(Try(s, a, c, attempt))
  {
    hide Chronicled, AccountOf, StatusOf;
    WritingBooks(s, s.(executions := s.executions + [Execution(a, attempt, StatusOf(c, attempt))]), Some(s.caseId),
      AttemptLogged(a, attempt, StatusOf(c, attempt)));
  }

  lemma {:induction false} AttemptingBooks(s: State, a: nat, c: Connector, attempt: nat)
    requires Booked(s) && 1 <= attempt <= MAX_ATTEMPTS
    ensures Booked(Attempts(s, a, c, attempt))
    decreases MAX_ATTEMPTS - attempt
  {
    hide Booked, Try;
    TryingBooks(s, a, c, attempt);
    if !Succeeds(c, attempt) && attempt < MAX_ATTEMPTS {
      AttemptingBooks(Try(s, a, c, attempt), a, c, attempt + 1);
    }
  }

  lemma SettlingBooks(s: State, a: nat, c: Connector, raised: seq<Flag>)
    requires Booked(s) && a < |s.actions|
    ensures Booked(Settled(s, a, c, raised))
  {
    hide Booked, AdvanceStage, AbsorbEvidence, Made;
    var last := On(c, Made(c, 1));
    if last.Answered? && last.success {
      AbsorbingBooks(s, last.evidence, raised);
      var s1 := SetStatus(AbsorbEvidence(s, last.evidence, raised), a, FinalStatus(c));
      SameStaysBooked(AbsorbEvidence(s, last.evidence, raised), s1);
      var stage := StageOnSuccess(s.actions[a].kind);
      if stage.Some? {
        AdvancingBooks(s1, stage.value);
      }
    } else {
      SameStaysBooked(s, SetStatus(s, a, Failed));
    }
  }

  lemma AbsorbingBooks(s: State, surfaced: seq<Delivery>, raised: seq<Flag>)
    requires Booked(s)
    ensures Booked(AbsorbEvidence(s, surfaced, raised))
  {
    hide Booked, IngestAll, Reconciled;
    if surfaced != [] {
      IngestingAllBooks(s, Filed(s.customer, surfaced));
      ReconcilingBooks(IngestAll(s, Filed(s.customer, surfaced)), raised);
    }
  }

  lemma ExecutingBooks(s: State, a: nat, c: Connector, raised: seq<Flag>)
    requires Booked(s) && a < |s.actions|
    ensures Booked(Execute(s, a, c, raised))
  {
    hide Booked, Attempts, Settled;
    if First(s.executions, SuccessOf(a)).None? {
      AsideBooks(s, SetStatus(s, a, Executing), ActionLogged(a, WasExecuting));
      AttemptingBooks(Started(s, a), a, c, 1);
      var s1 := Attempts(Started(s, a), a, c, 1);
      SettlingBooks(s1, a, c, raised);
      AsideBooks(Settled(s1, a, c, raised), Settled(s1, a, c, raised), ActionLogged(a, HasFinished(FinalStatus(c))));
    }
  }

  lemma ApprovingBooks(s: State, p: nat, decision: ApprovalStatus, user: User)
    requires Booked(s) && p < |s.approvals| && Decided(s, p, decision, user).Success?
    ensures Booked(Decided(s, p, decision, user).value)
  {
    hide Booked;
    var t := Decided(s, p, decision, user).value;
    AsideBooks(s, s.(approvals := t.approvals, actions := t.actions),
      ApprovalDecided(p, decision == Granted, user.id, user.role));
  }

  // ----- Every run -----

  lemma OperatingBooks(s: State, op: Op)
    requires Booked(s)
    ensures Booked(Apply(s, op))
  {
    hide Booked, Decide, Execute, Generated, Reconciled, Decided, IngestInto;
    match op
    case Deliver(d) => IngestingBooks(s, d);
    case Reconcile(raised) => ReconcilingBooks(s, raised);
    case Regenerate(specs) => GeneratingBooks(s, specs);
    case DecideNext(scan, exposure) => DecidingBooks(s, scan, exposure);
    case Run(a, c, raised) =>
      if a < |s.actions| {
        ExecutingBooks(s, a, c, raised);
      }
    case Approve(p, decision, user) =>
      if p < |s.approvals| && Decided(s, p, decision, user).Success? {
        ApprovingBooks(s, p, decision, user);
      }
    case Elsewhere(owner, event) =>
      if owner != Some(s.caseId) {
        ForeignEntryBooks(s, owner, event);
      }
  }

  lemma ForeignEntryBooks(s: State, owner: Option<nat>, event: Event)
    requires Booked(s) && owner != Some(s.caseId)
    ensures Booked(Write(s, owner, event))
  {
    hide Chronicled, AccountOf;
    WritingBooks(s, s, owner, event);
  }

  lemma OpeningBooks(caseId: nat, customer: nat, prior: seq<Delivery>)
    ensures Booked(Opened(caseId, customer, prior))
  {
    var blank := Blank(caseId, customer);
    assert Booked(blank) by { NothingIsBooked(caseId, customer); }
    hide Booked;
    IngestingAllBooks(blank, prior);
    AsideBooks(IngestAll(blank, prior), IngestAll(blank, prior), CaseOpened);
  }

  lemma NothingIsBooked(caseId: nat, customer: nat)
    ensures Booked(Blank(caseId, customer))
  {
    assert UpTo(0) == [];
  }

  lemma {:induction false} CaseIsBooked(caseId: nat, customer: nat, prior: seq<Delivery>, ops: seq<Op>)
    ensures Booked(Case(caseId, customer, prior, ops))
  {
    hide Apply, Booked;
    if ops == [] {
      OpeningBooks(caseId, customer, prior);
    } else {
      CaseIsBooked(caseId, customer, prior, ops[..|ops| - 1]);
      OperatingBooks(Case(caseId, customer, prior, ops[..|ops| - 1]), ops[|ops| - 1]);
    }
  }
}
