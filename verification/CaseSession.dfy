/**
 One case and its customer's evidence as the program holds them: tables that grow, fields that are
 overwritten, and procedures that do both. Every procedure is proved against the function that
 specifies it; what holds of every reachable state then holds of every valid session.
 */
module CaseSession {
  import opened Domain
  import opened Sequences
  import opened AuditReplay
  import opened CaseState
  import opened EvidenceStore
  import opened Timeline
  import opened Uncertainty
  import opened FlagRules
  import opened Confidence
  import opened HypothesisMerge
  import opened HypothesisEngine
  import opened NbaEngine
  import opened Executor
  import opened ExecutorTheorems
  import opened Approvals
  import opened Orchestrator
  import opened Runs
  import opened CaseCycle
  import opened WholeAdvances
  import opened Finality
  import opened ReplayTheorems
  import Catalog = RecoveryCatalog

  // ----- The evidence query, ordered by time -----

  function InsertByTime(rows: seq<Evidence>, ids: seq<nat>, id: nat): seq<nat>
    requires id < |rows| && forall k | 0 <= k < |ids| :: ids[k] < |rows|
  {
    if ids == [] || rows[ids[|ids| - 1]].occurredAt <= rows[id].occurredAt then ids + [id]
    else InsertByTime(rows, ids[..|ids| - 1], id) + [ids[|ids| - 1]]
  }

  lemma {:induction false} InsertedByTime(rows: seq<Evidence>, ids: seq<nat>, id: nat)
    requires id < |rows| && forall k | 0 <= k < |ids| :: ids[k] < |rows|
    requires id !in ids && NoDuplicates(ids)
    requires forall i, j | 0 <= i < j < |ids| :: rows[ids[i]].occurredAt <= rows[ids[j]].occurredAt
    ensures var r := InsertByTime(rows, ids, id);
            && NoDuplicates(r)
            && (forall x :: x in r <==> x in ids || x == id)
            && (forall k | 0 <= k < |r| :: r[k] < |rows|)
            && (forall i, j | 0 <= i < j < |r| :: rows[r[i]].occurredAt <= rows[r[j]].occurredAt)
  {
    if ids != [] && rows[ids[|ids| - 1]].occurredAt > rows[id].occurredAt {
      var front, last := ids[..|ids| - 1], ids[|ids| - 1];
      assert ids == front + [last];
      InsertedByTime(rows, front, id);
      LastStaysLast(rows, front, last, InsertByTime(rows, front, id), id);
    }
  }

  /** A row later than all before it can go back to the end. */
  lemma LastStaysLast(rows: seq<Evidence>, front: seq<nat>, last: nat, r: seq<nat>, id: nat)
    requires last < |rows| && (forall k | 0 <= k < |front| :: front[k] < |rows|)
             && (forall k | 0 <= k < |r| :: r[k] < |rows|)
    requires id < |rows| && rows[last].occurredAt > rows[id].occurredAt && last !in front && last != id
    requires forall k | 0 <= k < |front| :: rows[front[k]].occurredAt <= rows[last].occurredAt
    requires NoDuplicates(r) && forall x :: x in r <==> x in front || x == id
    requires forall i, j | 0 <= i < j < |r| :: rows[r[i]].occurredAt <= rows[r[j]].occurredAt
    ensures NoDuplicates(r + [last])
    ensures forall x :: x in r + [last] <==> x in front + [last] || x == id
    ensures forall i, j | 0 <= i < j < |r + [last]| ::
            rows[(r + [last])[i]].occurredAt <= rows[(r + [last])[j]].occurredAt
  {
    forall i | 0 <= i < |r| ensures rows[r[i]].occurredAt <= rows[last].occurredAt && r[i] != last {
      assert r[i] in r;
    }
  }

  /** The current evidence of a customer, oldest first. */
  function CurrentByTime(rows: seq<Evidence>, customer: nat, n: nat): (ids: seq<nat>)
    requires n <= |rows|
    ensures forall k | 0 <= k < |ids| :: ids[k] < |rows|
  {
    if n == 0 then []
    else
      var ids := CurrentByTime(rows, customer, n - 1);
      if IsCurrentFor(rows[n - 1], customer) then
        InsertBounded(rows, ids, n - 1);
        InsertByTime(rows, ids, n - 1)
      else ids
  }

  lemma {:induction false} InsertBounded(rows: seq<Evidence>, ids: seq<nat>, id: nat)
    requires id < |rows| && forall k | 0 <= k < |ids| :: ids[k] < |rows|
    ensures forall k | 0 <= k < |InsertByTime(rows, ids, id)| :: InsertByTime(rows, ids, id)[k] < |rows|
  {
    if ids != [] {
      InsertBounded(rows, ids[..|ids| - 1], id);
    }
  }

  lemma {:induction false} CurrentListed(rows: seq<Evidence>, customer: nat, n: nat)
    requires n <= |rows|
    ensures var ids := CurrentByTime(rows, customer, n);
            && NoDuplicates(ids)
            && (forall id: nat :: id in ids <==> id < n && Current(rows, customer, id))
            && (forall i, j | 0 <= i < j < |ids| :: rows[ids[i]].occurredAt <= rows[ids[j]].occurredAt)
  {
    if n > 0 {
      CurrentListed(rows, customer, n - 1);
      if IsCurrentFor(rows[n - 1], customer) {
        InsertedByTime(rows, CurrentByTime(rows, customer, n - 1), n - 1);
      }
    }
  }

  /** The query behind timeline, flags and hypotheses. */
  function Evidences(rows: seq<Evidence>, customer: nat): (ids: seq<nat>)
    ensures Lists(rows, customer, ids)
  {
    CurrentListed(rows, customer, |rows|);
    CurrentByTime(rows, customer, |rows|)
  }

  lemma ListedIffEvidence(s: State, ids: seq<nat>)
    requires Lists(s.evidence, s.customer, ids)
    ensures ids != [] <==> HasEvidence(s)
  {
    var first := First(s.evidence, IsCurrent(s.customer));
    if first.Some? {
      assert first.value in ids;
    }
    if ids != [] {
      assert ids[0] in ids && IsCurrent(s.customer)(s.evidence[ids[0]]);
    }
  }

  lemma ClockTicks(stamps: seq<Stamp>, clock: int)
    requires Ticking(stamps) && forall i | 0 <= i < |stamps| :: stamps[i].occurred < clock
    ensures Ticking(stamps + [Stamp(clock, clock)])
  {}

  /** The exposure computed during an enactment only matters to an analysis. */
  lemma RemedyIsNoAnalysis(s: State, h: nat, exposure: nat, computed: nat)
    requires h < |s.hypotheses|
    ensures Enact(s, ChooseRemedy(s, h, exposure), exposure) == Enact(s, ChooseRemedy(s, h, exposure), computed)
  {
    hide Propose, ClosedOut, Analysed, Catalog.BestOption, Catalog.Rank;
  }

  lemma FiledSnoc(customer: nat, ds: seq<Delivery>, d: Delivery)
    ensures Filed(customer, ds + [d]) == Filed(customer, ds) + [d.(customer := customer)]
  {
    assert (ds + [d])[..|ds|] == ds;
  }

  lemma CaseGoesOn(s: State, prior: seq<Delivery>, ops: seq<Op>, op: Op, after: State)
    requires s == Case(s.caseId, s.customer, prior, ops) && after == Apply(s, op)
    requires Whole(Opened(s.caseId, s.customer, prior), ops) && Standalone(op)
    ensures after == Case(s.caseId, s.customer, prior, ops + [op])
    ensures Whole(Opened(s.caseId, s.customer, prior), ops + [op])
  {
    hide Apply, Opened, Whole;
    OneMore(Opened(s.caseId, s.customer, prior), ops, op);
    assert (ops + [op])[..|ops|] == ops;
  }

  lemma CasePlaysOn(s: State, prior: seq<Delivery>, ops: seq<Op>, t: Turn, after: State)
    requires s == Case(s.caseId, s.customer, prior, ops) && after == Play(s, AdvanceOps(s, t))
    requires Whole(Opened(s.caseId, s.customer, prior), ops)
    ensures after == Case(s.caseId, s.customer, prior, ops + AdvanceOps(s, t))
    ensures Whole(Opened(s.caseId, s.customer, prior), ops + AdvanceOps(s, t))
  {
    hide Apply, Opened, Whole, AdvanceOps;
    PlayConcat(Opened(s.caseId, s.customer, prior), ops, AdvanceOps(s, t));
    OneMoreAdvance(Opened(s.caseId, s.customer, prior), ops, t);
  }

  /** Rows of others after the case's last one do not count. */
  lemma {:induction false} EverythingByNow(stamps: seq<Stamp>, log: seq<Entry>, caseId: nat)
    requires |stamps| == |log|
    ensures Replayed(log[..WrittenBy(log, stamps, caseId, None)], caseId) == Replayed(log, caseId)
  {
    var m := |log| - 1;
    if log == [] || Selected(log, stamps, caseId, None, m) {
      assert log[..|log|] == log;
    } else {
      EverythingByNow(stamps[..m], log[..m], caseId);
      assert log[..m][..WrittenBy(log, stamps, caseId, None)] == log[..WrittenBy(log, stamps, caseId, None)];
    }
  }

  lemma NothingReplayed(caseId: nat)
    ensures Replayed([], caseId) == BLANK
  {}

  lemma CaseIsMirrored(s: State, prior: seq<Delivery>, ops: seq<Op>)
    requires s == Case(s.caseId, s.customer, prior, ops)
    ensures |s.snapshots| == |s.log|
  {
    CaseHolds(s.caseId, s.customer, prior, ops);
  }

  // ----- The drive loop as a loop -----

  /** The same turns, up to the flags raised during them. */
  ghost predicate SameEnvironment(steps: seq<Turn>, played: seq<Turn>) {
    |steps| == |played| && forall i | 0 <= i < |steps| :: played[i] == steps[i].(raised := played[i].raised)
  }

  lemma EnvironmentSnoc(steps: seq<Turn>, played: seq<Turn>, i: nat, turn: Turn)
    requires i < |steps| && SameEnvironment(steps[..i], played) && turn == steps[i].(raised := turn.raised)
    ensures SameEnvironment(steps[..i + 1], played + [turn])
  {}

  lemma EnvironmentNone(steps: seq<Turn>)
    ensures SameEnvironment(steps[..0], [])
  {}

  lemma SameScans(steps: seq<Turn>, played: seq<Turn>)
    requires SameEnvironment(steps, played) && forall t | t in steps :: t.scan == 0
    ensures forall t | t in played :: t.scan == 0
  {
    forall i | 0 <= i < |played| ensures played[i].scan == 0 {
      assert steps[i] in steps;
    }
  }

  function Prefixed(taken: seq<nat>, rest: Drive): Drive {
    rest.(taken := taken + rest.taken)
  }

  /** After these turns the loop is here, having taken this, whatever comes next. */
  ghost predicate DroveTo(start: State, played: seq<Turn>, s: State, taken: seq<nat>) {
    forall rest :: Driven(start, played + rest, []) == Prefixed(taken, Driven(s, rest, taken))
  }

  /** After these turns the loop has ended, whatever would have come next. */
  ghost predicate Stopped(start: State, played: seq<Turn>, d: Drive) {
    forall rest :: Driven(start, played + rest, []) == d
  }

  lemma DroveNowhere(s: State)
    ensures DroveTo(s, [], s, [])
  {
    hide Driven;
    forall rest ensures Driven(s, [] + rest, []) == Prefixed([], Driven(s, rest, [])) {
      assert [] + rest == rest;
    }
  }

  function StopFor(s: State, a: Option<nat>, taken: seq<nat>): Stop
    requires a.Some? ==> a.value < |s.actions|
  {
    if After(s, a, taken).Some? then After(s, a, taken).value else Capped
  }

  /** One more turn: either the loop stops with it, or it has driven that much further. */
  lemma DroveOn(
    start: State, played: seq<Turn>, s: State, taken: seq<nat>, turn: Turn,
    s1: State, a: Option<nat>, taken1: seq<nat>, stop: Stop)
    requires DroveTo(start, played, s, taken) && Advance(s, turn) == (s1, a)
    requires a.Some? ==> a.value < |s1.actions|
    requires taken1 == taken + if a.Some? then [a.value] else []
    requires stop == StopFor(s1, a, taken)
    ensures stop == Capped ==> DroveTo(start, played + [turn], s1, taken1)
    ensures stop != Capped ==> Stopped(start, played + [turn], Drive(s1, taken1, stop))
  {
    hide Driven, Advance;
    forall rest
      ensures stop == Capped ==> Driven(start, played + [turn] + rest, []) == Prefixed(taken1, Driven(s1, rest, taken1))
      ensures stop != Capped ==> Driven(start, played + [turn] + rest, []) == Drive(s1, taken1, stop)
    {
      assert played + [turn] + rest == played + ([turn] + rest);
      assert ([turn] + rest)[1..] == rest;
      DrivenJoins(s, [turn] + rest, taken, (s1, a));
    }
  }

  lemma DriveEnds(start: State, steps: seq<Turn>, played: seq<Turn>, d: Drive)
    requires |played| <= |steps| && SameEnvironment(steps[..|played|], played)
    requires d.stop == Capped ==> |played| == |steps| && DroveTo(start, played, d.state, d.taken)
    requires d.stop != Capped ==> Stopped(start, played, d)
    ensures SameEnvironment(steps, played + steps[|played|..])
    ensures Driven(start, played + steps[|played|..], []) == d
  {
    hide Advance, After;
    if d.stop == Capped {
      assert steps[|played|..] == [];
      assert Driven(start, played + [], []) == Prefixed(d.taken, Driven(d.state, [], d.taken));
    }
  }

  /** A case just opened: nothing but its prior evidence, row by row, and the entries of that and its own. */
  ghost predicate IsNew(s: State, caseId: nat, customer: nat, prior: seq<Delivery>) {
    && s.caseId == caseId && s.customer == customer
    && s.status == CaseStatus.Open && s.stage == IssueReported && !s.reevaluate && s.primary == None
    && s.flags == [] && s.hypotheses == [] && s.links == [] && s.impacts == []
    && s.actions == [] && s.approvals == [] && s.executions == []
    && |s.evidence| == |prior|
    && (forall i | 0 <= i < |prior| :: Tells(s.evidence[i], prior[i]))
    && |s.log| == |prior| + 1
    && s.log[|prior|] == Entry(Some(caseId), CaseOpened)
  }

  lemma OpenedIsNew(caseId: nat, customer: nat, prior: seq<Delivery>)
    ensures IsNew(Opened(caseId, customer, prior), caseId, customer, prior)
  {
    hide IngestAll, PictureOf, Tells;
    IngestAllStates(Blank(caseId, customer), prior);
    IngestAllLogs(Blank(caseId, customer), prior);
  }

  // ----- The session -----

  class Session {
    const caseId: nat
    const customer: nat
    ghost const prior: seq<Delivery>

    // The tables
    var evidence: seq<Evidence>
    var events: seq<CanonicalEvent>
    var flags: seq<Flag>
    var hypotheses: seq<Hypothesis>
    var links: seq<Link>
    var impacts: seq<Impact>
    var actions: seq<Action>
    var approvals: seq<Approval>
    var executions: seq<Execution>
    var log: seq<Entry>
    var stamps: seq<Stamp>

    // The case's own fields, and the time
    var status: CaseStatus
    var stage: Stage
    var reevaluate: bool
    var primary: Option<nat>
    var clock: int

    // History variables: what each write saw, every stage asked for, every operation
    ghost var snapshots: seq<Picture>
    ghost var requests: seq<StageRequest>
    ghost var history: seq<Op>

    ghost function View(): State
      reads this
    {
      State(caseId, customer, evidence, flags, hypotheses, links, impacts, actions, approvals, executions,
            log, status, stage, reevaluate, primary, snapshots, requests)
    }

    /** Audit entries are stamped in write order, and the clock is ahead of them all. */
    ghost predicate Clocked()
      reads `log, `stamps, `clock
    {
      && |stamps| == |log|
      && Ticking(stamps)
      && forall i | 0 <= i < |stamps| :: stamps[i].occurred < clock
    }

    /** Fit to be worked on: the clock runs and the timeline refers to evidence properly. */
    ghost predicate WellFormed()
      reads `log, `stamps, `clock, `evidence, `events
    {
      Clocked() && WellKept(evidence, events)
    }

    // ----- Audit and stage -----

    method RecordFor(owner: Option<nat>, event: Event)
      requires WellFormed()
      modifies this
      ensures WellFormed() && View() == Write(old(View()), owner, event)
      ensures events == old(events) && history == old(history)
    {
      hide WellKept, Told, Ticking;
      ClockTicks(stamps, clock);
      log := log + [Entry(owner, event)];
      stamps := stamps + [Stamp(clock, clock)];
      clock := clock + 1;
      snapshots := snapshots + [PictureOf(old(View()))];
    }

    method MoveStage(to: Stage)
      requires WellFormed()
      modifies this
      ensures WellFormed() && View() == AdvanceStage(old(View()), to)
      ensures events == old(events) && history == old(history)
    {
      hide WellFormed, Told;
      requests := requests + [Ask(to)];
      if Index(to) > Index(stage) {
        var from := stage;
        stage := to;
        RecordFor(Some(caseId), StageAdvanced(from, to));
      }
    }

    // ----- Ingestion and reconciliation -----

    /** A new fact, a repeat or a correction; the row handed back is the one that now states the fact. */
    method IngestEvidence(d: Delivery) returns (id: nat)
      requires WellFormed()
      modifies this
      ensures WellFormed() && View() == IngestInto(old(View()), d)
      ensures events == old(events) && history == old(history)
      ensures id < |evidence| && evidence[id].key == d.key && evidence[id].payload == d.payload
              && !evidence[id].superseded
      ensures |evidence| == |old(evidence)| + 1
      ensures var row := evidence[|old(evidence)|];
              && row.customer == d.customer
              && row.order == d.order
              && row.key == d.key
              && row.occurredAt == d.occurredAt
              && row.payload == d.payload
              && !row.superseded
    {
      hide WellKept;
      var existing, n := Hit(evidence, d), |evidence|;
      IngestKeepsEvents(evidence, events, d);
      if existing.Some? && evidence[existing.value].payload == d.payload {
        evidence := evidence + [NewRow(d).(duplicateOf := existing)];
        id := existing.value;
      } else {
        var row := NewRow(d);
        if existing.Some? {
          evidence := evidence[existing.value := evidence[existing.value].(superseded := true)];
          row := row.(supersedes := existing);
        }
        evidence := evidence + [row];
        id := n;
      }
      RecordFor(None, EvidenceLogged(n));
    }

    /** The events follow the evidence; what is handed back is the timeline in order of time. */
    method AssembleTimeline() returns (timeline: seq<nat>, added: seq<nat>)
      requires WellFormed()
      modifies `events
      ensures WellFormed() && View() == old(View())
      ensures Assembles(evidence, customer, old(events), added, events)
      ensures IsTimeline(evidence, Evidences(evidence, customer), events, timeline)
    {
      events, timeline, added := Assemble(evidence, customer, Evidences(evidence, customer), events);
      AssemblyKeeps(evidence, customer, old(events), added, events);
    }

    method DetectUncertainty() returns (raised: seq<Flag>)
      requires WellFormed()
      modifies this
      ensures WellFormed() && events == old(events) && history == old(history)
      ensures Detects(evidence, customer, old(clock), Descriptions(old(flags)), raised)
      ensures Exactly(evidence, customer, old(clock), Descriptions(old(flags)), raised)
      ensures View() == RecordFlags(old(View()).(flags := old(flags) + raised), |old(flags)|, |raised|)
    {
      hide WellFormed, Detects, Exactly, Told;
      raised := Detect(evidence, customer, Evidences(evidence, customer), clock, Descriptions(flags));
      var from := |flags|;
      flags := flags + raised;
      for i := 0 to |raised|
        invariant WellFormed() && events == old(events) && history == old(history)
        invariant View() == RecordFlags(old(View()).(flags := old(flags) + raised), from, i)
      {
        RecordFor(Some(caseId), FlagRaised(from + i));
      }
    }

    method ReconcileCase() returns (timeline: seq<nat>, added: seq<nat>, raised: seq<Flag>)
      requires WellFormed()
      modifies this
      ensures WellFormed() && history == old(history)
      ensures Assembles(evidence, customer, old(events), added, events)
      ensures IsTimeline(evidence, Evidences(evidence, customer), events, timeline)
      ensures Detects(evidence, customer, old(clock), Descriptions(old(flags)), raised)
      ensures Exactly(evidence, customer, old(clock), Descriptions(old(flags)), raised)
      ensures View() == Reconciled(old(View()), raised)
    {
      hide WellKept, Detects, Assembles;
      timeline, added := AssembleTimeline();
      raised := DetectUncertainty();
      ListedIffEvidence(old(View()), Evidences(evidence, customer));
      if timeline != [] {
        MoveStage(JourneyAssembled);
      }
    }

    // ----- Hypotheses -----

    method AddLinks(h: nat, relation: Relation, ids: seq<nat>)
      requires WellFormed() && forall id | id in ids :: id < |evidence|
      modifies `links
      ensures WellFormed() && View() == old(View()).(links := old(links) + LinksFor(evidence, h, relation, ids))
    {
      hide WellKept;
      for i := 0 to |ids|
        invariant WellFormed()
                  && View() == old(View()).(links := old(links) + LinksFor(evidence, h, relation, ids[..i]))
      {
        assert ids[i] in ids && ids[..i + 1][..i] == ids[..i];
        links := links + [Link(h, ids[i], relation, SourceWeight(evidence[ids[i]].key.source))];
      }
      assert ids[..|ids|] == ids;
    }

    /** A spec none of whose supporting citations is current evidence is never stored. */
    method CreateHypothesis(spec: Spec)
      requires WellFormed()
      modifies this
      ensures WellFormed() && View() == Create(old(View()), spec)
      ensures events == old(events) && history == old(history)
    {
      hide WellFormed, LinksFor, ConfidenceOf, Filter;
      var supports := ValidIds(evidence, customer, spec.supports);
      var weakens := ValidIds(evidence, customer, spec.weakens);
      FilterMembers(spec.supports, Citable(evidence, customer));
      FilterMembers(spec.weakens, Citable(evidence, customer));
      if supports != [] {
        var h := |hypotheses|;
        hypotheses := hypotheses + [Hypothesis(spec.category, 0, Active)];
        AddLinks(h, Supports, supports);
        AddLinks(h, Weakens, weakens);
        var confidence := ComputeConfidence(links, h);
        hypotheses := hypotheses[h := hypotheses[h].(confidence := confidence)];
        assert hypotheses == old(hypotheses) + [Hypothesis(spec.category, confidence, Active)];
        RecordFor(Some(caseId), HypothesisCreated(h, spec.category, confidence));
      }
    }

    method CreateHypotheses(specs: seq<Spec>)
      requires WellFormed()
      modifies this
      ensures WellFormed() && View() == CreateAll(old(View()), specs)
      ensures events == old(events) && history == old(history)
    {
      hide WellKept, Create;
      for i := 0 to |specs|
        invariant WellFormed() && View() == CreateAll(old(View()), specs[..i])
        invariant events == old(events) && history == old(history)
      {
        assert specs[..i + 1][..i] == specs[..i];
        CreateHypothesis(specs[i]);
      }
      assert specs[..|specs|] == specs;
    }

    method RetireBefore(from: nat)
      requires WellFormed() && from <= |hypotheses|
      modifies `hypotheses
      ensures WellFormed() && View() == old(View()).(hypotheses := Retire(old(hypotheses), from))
    {
      hide WellKept;
      for i := 0 to from
        invariant WellFormed() && View() == old(View()).(hypotheses := hypotheses)
        invariant |hypotheses| == |old(hypotheses)|
        invariant forall k | 0 <= k < |hypotheses| ::
            hypotheses[k] == if k < i && IsActive(old(hypotheses)[k]) then old(hypotheses)[k].(status := Superseded)
              else old(hypotheses)[k]
      {
        if hypotheses[i].status == Active {
          hypotheses := hypotheses[i := hypotheses[i].(status := Superseded)];
        }
      }
    }

    /** The one deliberate exception to a stage that only moves forward, audited by its own entry. */
    method ResetStage(previousTop: nat, newTop: nat)
      requires WellFormed()
      modifies this
      ensures WellFormed() && events == old(events) && history == old(history)
      ensures View() ==
              Record(old(View()).(reevaluate := true, stage := FailureLocated, requests := old(requests) + [Reset]),
                               ReevaluationTriggered(previousTop, newTop))
    {
      hide WellFormed, Told;
      reevaluate := true;
      stage := FailureLocated;
      requests := requests + [Reset];
      RecordFor(Some(caseId), ReevaluationTriggered(previousTop, newTop));
    }

    /** The new batch from `from` on replaces the old one; a big shift in confidence resets the stage. */
    method HandOver(from: nat)
      requires WellFormed() && from < |hypotheses|
      modifies this
      ensures WellFormed() && View() == TakeOver(old(View()), from)
      ensures events == old(events) && history == old(history)
    {
      hide WellFormed, AdvanceStage, Retire, Best, TopActive, First, Gap, Record;
      var previous := First(hypotheses[..from], IsActive);
      var previousTop := TopActive(hypotheses[..from]);
      var top := Best(hypotheses, from);
      var newTop := hypotheses[top].confidence;
      RetireBefore(from);
      primary := Some(top);
      ghost var retired := old(View()).(hypotheses := Retire(old(hypotheses), from), primary := Some(top));
      assert View() == retired;
      MoveStage(FailureLocated);
      assert View() == AdvanceStage(retired, FailureLocated);
      if previous.Some? && Gap(newTop, previousTop) > REEVALUATION_DELTA {
        ResetStage(previousTop, newTop);
      }
    }

    /** Proposals come from the language model, or from the templates when it is unavailable. */
    method GenerateOrUpdateHypotheses(proposals: Option<seq<Spec>>) returns (specs: seq<Spec>)
      requires WellFormed()
      modifies this
      ensures WellFormed() && View() == Generated(old(View()), specs)
      ensures specs == if proposals.Some? then proposals.value else TemplateSpecs(old(flags))
      ensures events == old(events) && history == old(history)
    {
      hide WellKept, TakeOver, CreateAll, TemplateSpecs, HasEvidence;
      if proposals.Some? {
        specs := proposals.value;
      } else {
        specs := GenerateViaTemplate(flags);
      }
      var current := Evidences(evidence, customer);
      ListedIffEvidence(View(), current);
      if current == [] || specs == [] {
        return;
      }
      var merged := MergeByCategory(specs);
      var from := |hypotheses|;
      CreateHypotheses(merged);
      if |hypotheses| > from {
        HandOver(from);
      }
    }

    // ----- Deciding -----

    /** A new action row, with its approval row if it needs one. */
    method AddAction(p: Proposal) returns (a: nat)
      requires WellFormed()
      modifies this
      ensures WellFormed() && View() == Insert(old(View()), p) && a == |old(actions)| < |actions|
      ensures events == old(events) && history == old(history)
    {
      hide WellFormed, Told;
      a := |actions|;
      actions := actions + [NewAction(p)];
      if p.requiresApproval {
        approvals := approvals + [Approval(a, p.role, Pending, None)];
      }
      assert approvals == old(approvals) + if p.requiresApproval then [Approval(a, p.role, Pending, None)] else [];
      RecordFor(Some(caseId), ActionLogged(a, WasProposed(KindOf(p.target), p.requiresApproval)));
    }

    /** The identical decision made earlier, if there is one, else a new one. */
    method ProposeAction(p: Proposal) returns (a: nat)
      requires WellFormed()
      modifies this
      ensures WellFormed() && (View(), a) == Propose(old(View()), p) && a < |actions|
      ensures events == old(events) && history == old(history)
    {
      hide WellFormed, Told, AdvanceStage, Insert;
      if p.status.Some? {
        status := p.status.value;
      }
      if p.stage.Some? {
        MoveStage(p.stage.value);
      }
      assert View() == Prepared(old(View()), p);
      var existing := First(actions, HasKey(KeyOf(p.target)));
      if existing.Some? {
        return existing.value;
      }
      a := AddAction(p);
    }

    method Settle(a: nat, outcome: ActionStatus)
      requires WellFormed() && a < |actions|
      modifies `actions
      ensures WellFormed() && View() == SetStatus(old(View()), a, outcome)
    {
      actions := actions[a := actions[a].(status := outcome)];
    }

    /** Impact analysis runs inline; the exposure it computes is the environment's. */
    method RunAnalysis(h: nat, exposure: nat) returns (a: nat)
      requires WellFormed()
      modifies this
      ensures WellFormed() && (View(), a) == Analysed(old(View()), h, exposure) && a < |actions|
      ensures events == old(events) && history == old(history)
    {
      hide WellFormed, Told, AdvanceStage, Propose;
      a := ProposeAction(Proposal(ImpactOf(h), false, Supervisor, Some(Investigating), None));
      impacts := impacts + [Impact(h, exposure)];
      RecordFor(Some(caseId), ImpactComputed(|impacts| - 1));
      MoveStage(ImpactAssessed);
      Settle(a, Succeeded);
    }

    method CloseOut(h: nat) returns (a: nat)
      requires WellFormed()
      modifies this
      ensures WellFormed() && (View(), a) == ClosedOut(old(View()), h) && a < |actions|
      ensures events == old(events) && history == old(history)
    {
      hide WellFormed, Told, AdvanceStage, Propose;
      a := ProposeAction(Proposal(Closure(h), false, Supervisor, None, None));
      if actions[a].status != Succeeded {
        status := Closed;
        MoveStage(OutcomeRetained);
        Settle(a, Succeeded);
        RecordFor(Some(caseId), CaseClosed);
      }
    }

    /** The seven branches, in the order they are tried. */
    method DecideNextAction(scan: nat, exposure: nat) returns (a: Option<nat>)
      requires WellFormed()
      modifies this
      ensures WellFormed() && (View(), a) == Decide(old(View()), scan, exposure)
      ensures a.Some? ==> a.value < |actions|
      ensures events == old(events) && history == old(history)
    {
      hide WellFormed, Told, Propose, Analysed, ClosedOut, NeedsItsmCheck, Grounds, ChooseRemedy;
      var live := First(actions, IsLive);
      if live.Some? && !reevaluate {
        return live;
      }
      if reevaluate {
        if live.Some? {
          RecordFor(Some(caseId), ReevaluationDeferred(live.value));
          return live;
        }
        reevaluate := false;
      }
      ghost var s := View();
      assert Decide(old(View()), scan, exposure) == Enact(s, Choose(s, scan), exposure);
      var id: nat;
      var grounds := ActivePrimary();
      // 1. Nothing grounded to work from.
      if grounds.None? {
        id := ProposeAction(Proposal(NoActiveHypothesis, false, Supervisor, Some(PendingEvidence), None));
        return Some(id);
      }
      var h := grounds.value;
      // 2. Too little confidence, and a gap that could be closed.
      var missing := Where(flags, IsMissing);
      if hypotheses[h].confidence < ACTION_THRESHOLD && missing != [] {
        id := ProposeAction(Proposal(MissingEvidence(AnyOf(missing, scan)), false, Supervisor, Some(PendingEvidence),
          Some(EvidenceChecked)));
        return Some(id);
      }
      // 3. Impact first.
      var impact := First(impacts, ImpactFor(h));
      if impact.None? {
        id := RunAnalysis(h, exposure);
        return Some(id);
      }
      // 4. Systemic causes before individual remedies.
      var systemic := LooksSystemic(h);
      if systemic {
        id := ProposeAction(Proposal(SystemicCheck(h), false, Supervisor, Some(Investigating), None));
        return Some(id);
      }
      RemedyIsNoAnalysis(s, h, impacts[impact.value].exposure, exposure);
      a := DecideRemedy(h, impacts[impact.value].exposure);
    }

    method ActivePrimary() returns (h: Option<nat>)
      ensures h == Grounds(View())
      ensures h.Some? ==> h.value < |hypotheses|
    {
      if primary.Some? && primary.value < |hypotheses| && hypotheses[primary.value].status == Active {
        return primary;
      }
      return None;
    }

    method LooksSystemic(h: nat) returns (r: bool)
      requires h < |hypotheses|
      ensures r == NeedsItsmCheck(View(), h)
    {
      var checks := First(actions, OfKind(EscalateItsm));
      var incident := First(evidence, ItsmEvidenceFor(customer));
      return SystemicProne(hypotheses[h].category) && checks.None? && incident.None?;
    }

    /** Branches 5 to 7: recover, notify, close. */
    method DecideRemedy(h: nat, exposure: nat) returns (a: Option<nat>)
      requires WellFormed() && h < |hypotheses|
      modifies this
      ensures WellFormed() && (View(), a) == Enact(old(View()), ChooseRemedy(old(View()), h, exposure), exposure)
      ensures a.Some? ==> a.value < |actions|
      ensures events == old(events) && history == old(history)
    {
      hide WellFormed, Told, Propose, ClosedOut, Catalog.BestOption, Catalog.Rank, RejectedCodes, RemedyProposal;
      var id: nat;
      var liveOrDone := First(actions, LiveOrDoneRecovery);
      if liveOrDone.None? {
        var options := Catalog.Rank(hypotheses[h].category, exposure);
        var chosen := Catalog.BestOption(options, RejectedCodes(actions));
        if chosen.None? {
          RecordFor(Some(caseId), OptionsExhausted(h));
          return None;
        }
        id := ProposeAction(RemedyProposal(h, chosen.value));
        return Some(id);
      }
      var recovered := First(actions, Done(ExecuteRecovery));
      if recovered.Some? && First(actions, OfKind(NotifyCustomer)).None? {
        id := ProposeAction(Proposal(RecoveryNotice(recovered.value), false, Supervisor, Some(PendingCustomerUpdate),
          None));
        return Some(id);
      }
      if First(actions, Done(NotifyCustomer)).Some? && First(actions, OfKind(CloseCase)).None? {
        id := CloseOut(h);
        return Some(id);
      }
      return None;
    }

    // ----- Executing -----

    /** Evidence a connector surfaced, filed under the case's customer. */
    method IngestSurfaced(ds: seq<Delivery>)
      requires WellFormed()
      modifies this
      ensures WellFormed() && View() == IngestAll(old(View()), Filed(customer, ds))
      ensures events == old(events) && history == old(history)
    {
      hide WellFormed, IngestInto;
      for i := 0 to |ds|
        invariant WellFormed() && View() == IngestAll(old(View()), Filed(customer, ds[..i]))
        invariant events == old(events) && history == old(history)
      {
        assert ds[..i + 1][..i] == ds[..i];
        FiledSnoc(customer, ds[..i], ds[i]);
        assert ds[..i + 1] == ds[..i] + [ds[i]];
        var _ := IngestEvidence(ds[i].(customer := customer));
      }
      assert ds[..|ds|] == ds;
    }

    /** At most three attempts, each on record; the last one's answer is handed back. */
    method AttemptRepeatedly(a: nat, connector: Connector) returns (result: Attempt)
      requires WellFormed()
      modifies this
      ensures WellFormed() && View() == Attempts(old(View()), a, connector, 1)
      ensures result == On(connector, Made(connector, 1))
      ensures events == old(events) && history == old(history)
    {
      hide WellFormed, Try;
      var attempt, done := 1, false;
      result := TimedOut;
      while !done
        invariant WellFormed() && events == old(events) && history == old(history)
        invariant 1 <= attempt <= MAX_ATTEMPTS
        invariant !done ==> Attempts(old(View()), a, connector, 1) == Attempts(View(), a, connector, attempt)
        invariant !done ==> Made(connector, 1) == Made(connector, attempt)
        invariant done ==> View() == Attempts(old(View()), a, connector, 1)
        invariant done ==> attempt == Made(connector, 1) && result == On(connector, attempt)
        decreases MAX_ATTEMPTS - attempt, !done
      {
        result := On(connector, attempt);
        LogAttempt(a, connector, attempt);
        if result.Answered? && result.success {
          done := true;
        } else if attempt < MAX_ATTEMPTS {
          attempt := attempt + 1;
        } else {
          done := true;
        }
      }
    }

    method LogAttempt(a: nat, connector: Connector, attempt: nat)
      requires WellFormed()
      modifies this
      ensures WellFormed() && View() == Try(old(View()), a, connector, attempt)
      ensures events == old(events) && history == old(history)
    {
      hide WellFormed, Told;
      executions := executions + [Execution(a, attempt, StatusOf(connector, attempt))];
      RecordFor(Some(caseId), AttemptLogged(a, attempt, StatusOf(connector, attempt)));
    }

    /** Reconciling inside an execution raises whatever flags are due by then. */
    method AbsorbAnswer(surfaced: seq<Delivery>) returns (raised: seq<Flag>)
      requires WellFormed()
      modifies this
      ensures WellFormed() && View() == AbsorbEvidence(old(View()), surfaced, raised)
      ensures history == old(history)
    {
      hide WellFormed, Detects, Reconciled, IngestAll, IsTimeline, Assembles;
      raised := [];
      if surfaced != [] {
        IngestSurfaced(surfaced);
        var _, _, flagged := ReconcileCase();
        raised := flagged;
      }
    }

    method FinishAction(a: nat, connector: Connector, result: Attempt) returns (raised: seq<Flag>)
      requires WellFormed() && a < |actions| && result == On(connector, Made(connector, 1))
      modifies this
      ensures WellFormed() && View() == Settled(old(View()), a, connector, raised)
      ensures history == old(history)
    {
      hide WellFormed, AbsorbEvidence, AdvanceStage, Made, On;
      raised := [];
      if result.Answered? && result.success {
        raised := AbsorbAnswer(result.evidence);
        Settle(a, if result.needsReview then NeedsManualReview else Succeeded);
        var to := StageOnSuccess(actions[a].kind);
        if to.Some? {
          MoveStage(to.value);
        }
      } else {
        Settle(a, Failed);
      }
    }

    /** Nothing is ever run again once it has succeeded. */
    method ExecuteAction(a: nat, connector: Connector) returns (raised: seq<Flag>)
      requires WellFormed() && a < |actions|
      modifies this
      ensures WellFormed() && View() == Execute(old(View()), a, connector, raised)
      ensures history == old(history)
    {
      hide WellFormed, Told, Attempts, Settled, FinalStatus, Made, On;
      raised := [];
      if First(executions, SuccessOf(a)).Some? {
        return;
      }
      Settle(a, Executing);
      RecordFor(Some(caseId), ActionLogged(a, WasExecuting));
      assert View() == Started(old(View()), a);
      var result := AttemptRepeatedly(a, connector);
      raised := FinishAction(a, connector, result);
      LogFinish(a, connector);
    }

    method LogFinish(a: nat, connector: Connector)
      requires WellFormed() && a < |actions| && actions[a].status == FinalStatus(connector)
      modifies this
      ensures WellFormed() && View() == Record(old(View()), ActionLogged(a, HasFinished(FinalStatus(connector))))
      ensures events == old(events) && history == old(history)
    {
      RecordFor(Some(caseId), ActionLogged(a, HasFinished(actions[a].status)));
    }

    // ----- Approving -----

    /** The approval and its action move together, or not at all. */
    method DecideApproval(p: nat, decision: ApprovalStatus, user: User) returns (error: Option<ApprovalError>)
      requires WellFormed() && p < |approvals|
      modifies this
      ensures WellFormed() && events == old(events) && history == old(history)
      ensures match Decided(old(View()), p, decision, user)
              case Success(after) => error == None && View() == after
              case Failure(e) => error == Some(e) && View() == old(View())
      ensures error == Some(NotADecision) <==> decision == Pending
      ensures error == Some(AlreadyDecided) <==> decision != Pending && old(approvals)[p].status != Pending
      ensures error == Some(WrongRole) <==>
                decision != Pending && old(approvals)[p].status == Pending
                && user.role != Admin && user.role != old(approvals)[p].requiredRole
      ensures error == None ==>
                && approvals == old(approvals)[p := old(approvals)[p].(status := decision, decidedBy := Some(user.id))]
                && old(approvals)[p].action < |old(actions)|
                && actions == old(actions)[old(approvals)[p].action :=
                                old(actions)[old(approvals)[p].action].(status :=
                                  if decision == Granted then Approved else Rejected)]
                && log == old(log) +
                     [Entry(Some(caseId), ApprovalDecided(p, decision == Granted, user.id, user.role))]
    {
      hide WellFormed, Told;
      var approval := approvals[p];
      if decision == Pending {
        return Some(NotADecision);
      }
      if approval.status != Pending {
        return Some(AlreadyDecided);
      }
      if user.role != Admin && user.role != approval.requiredRole {
        return Some(WrongRole);
      }
      if approval.action >= |actions| {
        return Some(ActionNotFound);
      }
      approvals := approvals[p := approval.(status := decision, decidedBy := Some(user.id))];
      Settle(approval.action, if decision == Granted then Approved else Rejected);
      RecordFor(Some(caseId), ApprovalDecided(p, decision == Granted, user.id, user.role));
      return None;
    }

    // ----- The operations on a case -----

    /** The session is what its history, in which every decision was carried out at once, made of a new case. */
    ghost predicate Valid()
      reads this
    {
      && WellFormed() && View() == Case(caseId, customer, prior, history)
      && Whole(Opened(caseId, customer, prior), history)
    }

    /** Opening a case for a customer of whom, as of others, evidence may already be on record. */
    constructor Open(caseId: nat, customer: nat, prior: seq<Delivery>)
      ensures Valid() && this.caseId == caseId && this.customer == customer && this.prior == prior
      ensures View() == Opened(caseId, customer, prior) && events == [] && history == []
      ensures IsNew(View(), caseId, customer, prior)
    {
      this.caseId, this.customer, this.prior := caseId, customer, prior;
      evidence, events, flags, hypotheses, links, impacts := [], [], [], [], [], [];
      actions, approvals, executions, log, stamps := [], [], [], [], [];
      status, stage, reevaluate, primary, clock := CaseStatus.Open, IssueReported, false, None, 0;
      snapshots, requests, history := [], [], [];
      new;
      for i := 0 to |prior|
        invariant WellFormed() && View() == IngestAll(Blank(caseId, customer), prior[..i])
        invariant events == [] && history == []
      {
        assert prior[..i + 1][..i] == prior[..i];
        var _ := IngestEvidence(prior[i]);
      }
      assert prior[..|prior|] == prior;
      RecordFor(Some(caseId), CaseOpened);
      OpenedIsNew(caseId, customer, prior);
    }

    /** Time passes, and with it rows become overdue or stale; nothing else changes. */
    method Elapse(seconds: nat)
      requires Valid()
      modifies `clock
      ensures Valid() && clock == old(clock) + seconds
      ensures View() == old(View()) && events == old(events)
    {
      clock := clock + seconds;
    }

    method ReceiveEvidence(d: Delivery) returns (id: nat)
      requires Valid()
      modifies this
      ensures Valid() && history == old(history) + [Deliver(d)]
      ensures View() == Apply(old(View()), Deliver(d)) && events == old(events)
      ensures id < |evidence| && evidence[id].key == d.key && evidence[id].payload == d.payload
              && !evidence[id].superseded
      ensures |evidence| == |old(evidence)| + 1 && Tells(evidence[|old(evidence)|], d)
    {
      hide WellFormed, Case, Whole, Opened, IngestInto;
      id := IngestEvidence(d);
      CaseGoesOn(old(View()), prior, history, Deliver(d), View());
      history := history + [Deliver(d)];
    }

    method ResolveApproval(p: nat, decision: ApprovalStatus, user: User) returns (error: Option<ApprovalError>)
      requires Valid() && p < |approvals|
      modifies this
      ensures Valid() && history == old(history) + [Approve(p, decision, user)]
      ensures View() == Apply(old(View()), Approve(p, decision, user)) && events == old(events)
      ensures error.None? <==> Decided(old(View()), p, decision, user).Success?
      ensures error.None? <==>
                && decision != Pending && old(approvals)[p].status == Pending
                && (user.role == Admin || user.role == old(approvals)[p].requiredRole)
    {
      hide WellFormed, Case, Whole, Opened, Decided;
      ApprovalsAreDecidedOnce(caseId, customer, prior, history, [], p, decision, user);
      error := DecideApproval(p, decision, user);
      CaseGoesOn(old(View()), prior, history, Approve(p, decision, user), View());
      history := history + [Approve(p, decision, user)];
    }

    /** Decide, then execute at once unless it needs approval or has run before. */
    method AdvanceCase(scan: nat, exposure: nat, connector: Connector) returns (a: Option<nat>, ghost turn: Turn)
      requires Valid()
      modifies this
      ensures turn == Turn(scan, exposure, connector, turn.raised)
      ensures Valid() && history == old(history) + AdvanceOps(old(View()), turn)
      ensures (View(), a) == Advance(old(View()), turn)
      ensures a.Some? ==> a.value < |actions|
    {
      hide WellFormed, Case, Whole, Opened, Decide, Execute, AdvanceOps;
      var raised: seq<Flag> := [];
      a := DecideNextAction(scan, exposure);
      ghost var decided := View();
      if a.Some? && (actions[a.value].status == Proposed || actions[a.value].status == Approved) {
        raised := ExecuteAction(a.value, connector);
      }
      turn := Turn(scan, exposure, connector, raised);
      AdvanceFrom(old(View()), turn, decided, a);
      AdvanceIsPlayed(old(View()), turn);
      CasePlaysOn(old(View()), prior, history, turn, View());
      history := history + AdvanceOps(old(View()), turn);
    }

    /** Reconcile and generate, as one operation each. */
    method RefreshCase(proposals: Option<seq<Spec>>) returns (raised: seq<Flag>, specs: seq<Spec>)
      requires Valid()
      modifies this
      ensures Valid() && history == old(history) + [Reconcile(raised), Regenerate(specs)]
      ensures View() == Generated(Reconciled(old(View()), raised), specs)
      ensures Detects(evidence, customer, old(clock), Descriptions(old(flags)), raised)
      ensures Exactly(evidence, customer, old(clock), Descriptions(old(flags)), raised)
      ensures specs == if proposals.Some? then proposals.value else TemplateSpecs(flags)
    {
      hide WellFormed, Case, Whole, Opened, Reconciled, Generated, Detects, TemplateSpecs, IsTimeline, Assembles,
        Evidences;
      var _, _, flagged := ReconcileCase();
      raised := flagged;
      CaseGoesOn(old(View()), prior, history, Reconcile(raised), View());
      ghost var reconciled := View();
      GeneratedFrame(reconciled, TemplateSpecs(flags));
      specs := GenerateOrUpdateHypotheses(proposals);
      GeneratedFrame(reconciled, specs);
      CaseGoesOn(reconciled, prior, old(history) + [Reconcile(raised)], Regenerate(specs), View());
      history := history + [Reconcile(raised), Regenerate(specs)];
      assert old(history) + [Reconcile(raised)] + [Regenerate(specs)] == history;
    }

    /**
     The drive loop. `steps` is what the environment has in store for each step, the flags raised
     inside it aside; what it did in the end is handed back as `played`.
     */
    method DriveCase(steps: seq<Turn>) returns (taken: seq<nat>, stop: Stop, ghost played: seq<Turn>)
      requires Valid() && |steps| == MAX_AUTO_STEPS
      modifies this
      ensures Valid() && SameEnvironment(steps, played)
      ensures Driven(old(View()), played, []) == Drive(View(), taken, stop)
    {
      hide WellFormed, Case, Whole, Opened, Advance, AdvanceOps, Valid, DroveTo, Stopped, SameEnvironment;
      taken, stop, played := [], Capped, [];
      DroveNowhere(View());
      EnvironmentNone(steps);
      var i := 0;
      while i < |steps| && stop == Capped
        invariant Valid() && i == |played| <= |steps|
        invariant SameEnvironment(steps[..i], played)
        invariant stop == Capped ==> DroveTo(old(View()), played, View(), taken)
        invariant stop != Capped ==> Stopped(old(View()), played, Drive(View(), taken, stop))
      {
        ghost var before, taken0 := View(), taken;
        ghost var turn: Turn;
        var a: Option<nat>;
        a, turn := AdvanceCase(steps[i].scan, steps[i].exposure, steps[i].connector);
        if a.Some? {
          taken := taken + [a.value];
        }
        stop := StopAfter(a, taken);
        DroveOn(old(View()), played, before, taken0, turn, View(), a, taken, stop);
        EnvironmentSnoc(steps, played, i, turn);
        played := played + [turn];
        i := i + 1;
      }
      DriveEnds(old(View()), steps, played, Drive(View(), taken, stop));
      played := played + steps[i..];
    }

    /** Nothing to do, a status only a human can move, or an action already taken. */
    method StopAfter(a: Option<nat>, taken: seq<nat>) returns (stop: Stop)
      requires a.Some? ==> a.value < |actions| && taken != [] && taken[|taken| - 1] == a.value
      ensures a.None? ==> stop == Idle
      ensures a.Some? ==> stop == StopFor(View(), a, taken[..|taken| - 1])
    {
      if a.None? {
        return Idle;
      }
      if Stalls(actions[a.value].status) {
        return Stalled;
      }
      if a.value in taken[..|taken| - 1] {
        return Repeated;
      }
      return Capped;
    }

    /** The whole cycle: reconcile, generate, drive. With a stable flag order the bound never cuts in. */
    method RunCaseCycle(proposals: Option<seq<Spec>>, steps: seq<Turn>)
      returns (taken: seq<nat>, stop: Stop, raised: seq<Flag>, specs: seq<Spec>, ghost played: seq<Turn>)
      requires Valid() && |steps| == MAX_AUTO_STEPS
      modifies this
      ensures Valid() && SameEnvironment(steps, played)
      ensures Driven(Generated(Reconciled(old(View()), raised), specs), played, []) == Drive(View(), taken, stop)
      ensures (forall t | t in steps :: t.scan == 0) ==> stop != Capped && |taken| <= 8
      ensures stop == Capped ==> |Where(flags, IsMissing)| >= 8
    {
      hide WellFormed, Case, Whole, Opened, Generated, Reconciled, Detects, Driven;
      raised, specs := RefreshCase(proposals);
      ghost var start, before := View(), history;
      taken, stop, played := DriveCase(steps);
      WholeRunsTakeEightGaps(caseId, customer, prior, before, played);
      if forall t | t in steps :: t.scan == 0 {
        SameScans(steps, played);
        BoundIsNeverWhatEndsTheLoop(caseId, customer, prior, before, played);
      }
    }

    /** Every valid session satisfies what holds of every reachable case. */
    lemma Holds()
      requires Valid()
      ensures Inv(View())
    {
      hide WellFormed, Inv, Case, Whole, Opened;
      CaseHolds(caseId, customer, prior, history);
    }

    /** What the case looked like at some time, from its audit log alone. */
    method ReplayCase(asOf: Option<int>) returns (r: Snapshot)
      requires Valid()
      ensures asOf.None? ==> ToldNow(r, View())
      ensures |stamps| == |log|
      ensures var n := WrittenBy(log, stamps, caseId, asOf);
              && n <= |log| == |snapshots|
              && (n == 0 ==> r == BLANK)
              && (n > 0 ==> ToldAt(View(), n - 1) && r == Replayed(log[..n], caseId))
    {
      hide WellKept, Case, Whole, Opened, ToldNow, ToldAt, Inv, Replayed;
      var ids;
      r, ids := ReplayCaseState(log, stamps, caseId, asOf);
      TickingTicksFor(log, stamps, caseId);
      ReplayIsLiveStateNow(caseId, customer, prior, history);
      var n := WrittenBy(log, stamps, caseId, asOf);
      EverythingByNow(stamps, log, caseId);
      CaseIsMirrored(View(), prior, history);
      if n > 0 {
        ReplayIsLiveStateAtEveryWrite(caseId, customer, prior, history, n - 1);
      } else {
        assert log[..0] == [] && Replayed([], caseId) == BLANK by { NothingReplayed(caseId); }
      }
    }
  }
}
