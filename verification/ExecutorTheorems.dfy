/** What an execution does to the case it belongs to, answer by answer. */
module ExecutorTheorems {
  import opened Domain
  import opened Sequences
  import opened CaseState
  import opened EvidenceStore
  import opened Executor
  import opened FlagRules
  import opened ActionSafety

  lemma {:induction false} FiledAt(customer: nat, ds: seq<Delivery>)
    ensures |Filed(customer, ds)| == |ds|
    ensures forall i | 0 <= i < |ds| :: Filed(customer, ds)[i] == ds[i].(customer := customer)
  {
    if ds != [] {
      FiledAt(customer, ds[..|ds| - 1]);
    }
  }

  /** An attempt at the action has succeeded. */
  predicate SucceededBefore(executions: seq<Execution>, a: nat) {
    exists k :: 0 <= k < |executions| && executions[k].action == a && executions[k].status == ToolSuccess
  }

  /** An action is executed unless an attempt at it has succeeded before; then nothing happens at all. */
  lemma ExecutesUnlessSucceeded(s: State, a: nat, c: Connector, raised: seq<Flag>)
    requires a < |s.actions|
    ensures Execute(s, a, c, raised) == s <==> SucceededBefore(s.executions, a)
  {
    hide Made, Told, Settled;
    if !SucceededBefore(s.executions, a) {
      AttemptsAppend(Started(s, a), a, c, 1);
      var s1 := Attempts(Started(s, a), a, c, 1);
      assert |s1.executions| > |s.executions|;
      assert Execute(s, a, c, raised).executions == s1.executions by { SettlingLeavesAttempts(s1, a, c, raised); }
    }
  }

  lemma SettlingLeavesAttempts(s: State, a: nat, c: Connector, raised: seq<Flag>)
    requires a < |s.actions|
    ensures Settled(s, a, c, raised).executions == s.executions
  {
    hide AbsorbEvidence, AdvanceStage, Made;
  }

  /** The rows from `from` on state these deliveries, in order. */
  ghost predicate States(rows: seq<Evidence>, from: nat, ds: seq<Delivery>) {
    |rows| == from + |ds| && forall i | 0 <= i < |ds| :: Tells(rows[from + i], ds[i])
  }

  lemma IngestStates(rows: seq<Evidence>, from: nat, ds: seq<Delivery>, d: Delivery)
    requires States(rows, from, ds)
    ensures States(Ingested(rows, d), from, ds + [d])
  {
    IngestGrows(rows, d);
  }

  lemma {:induction false} IngestAllStates(s: State, ds: seq<Delivery>)
    ensures States(IngestAll(s, ds).evidence, |s.evidence|, ds)
  {
    hide States, Ingested;
    if ds == [] {
      assert States(s.evidence, |s.evidence|, []) by { NothingStated(s.evidence); }
    } else {
      var n := |ds| - 1;
      IngestAllStates(s, ds[..n]);
      IngestStates(IngestAll(s, ds[..n]).evidence, |s.evidence|, ds[..n], ds[n]);
      assert ds[..n] + [ds[n]] == ds;
    }
  }

  /** One audit entry for each delivery, naming its row and no case. */
  lemma {:induction false} IngestAllLogs(s: State, ds: seq<Delivery>)
    ensures var after := IngestAll(s, ds);
            && |after.log| == |s.log| + |ds| && s.log <= after.log
            && forall k | |s.log| <= k < |after.log| ::
              after.log[k] == Entry(None, EvidenceLogged(|s.evidence| + k - |s.log|))
  {
    hide Told, Ingested;
    if ds != [] {
      var n := |ds| - 1;
      IngestAllLogs(s, ds[..n]);
      IngestAllStates(s, ds[..n]);
    }
  }

  lemma NothingStated(rows: seq<Evidence>)
    ensures States(rows, |rows|, [])
  {}

  lemma AbsorbedIsStated(s: State, surfaced: seq<Delivery>, raised: seq<Flag>)
    ensures States(AbsorbEvidence(s, surfaced, raised).evidence, |s.evidence|, Filed(s.customer, surfaced))
    ensures AbsorbEvidence(s, surfaced, raised).flags == s.flags + if surfaced == [] then [] else raised
  {
    hide States, IngestAll;
    if surfaced == [] {
      NothingStated(s.evidence);
      assert Filed(s.customer, []) == [];
    } else {
      IngestAllStates(s, Filed(s.customer, surfaced));
    }
  }

  /**
   An execution that succeeds files every delivery of its last answer, in order and under the
   case's own customer, and raises flags only if there was one; one that fails files nothing.
   */
  lemma ExecutionFilesItsAnswer(s: State, a: nat, c: Connector, raised: seq<Flag>)
    requires a < |s.actions| && !SucceededBefore(s.executions, a)
    ensures var after, last := Execute(s, a, c, raised), On(c, Made(c, 1));
            if last.Answered? && last.success then
              && FiledUnder(after.evidence, |s.evidence|, s.customer, last.evidence)
              && after.flags == s.flags + if last.evidence == [] then [] else raised
            else after.evidence == s.evidence && after.flags == s.flags
  {
    hide AbsorbEvidence, AdvanceStage, Made, Told, On, States, FiledUnder;
    var s1, last := Attempts(Started(s, a), a, c, 1), On(c, Made(c, 1));
    if last.Answered? && last.success {
      AbsorbedIsStated(s1, last.evidence, raised);
      FiledAt(s.customer, last.evidence);
      FiledRowsTell(Execute(s, a, c, raised).evidence, |s.evidence|, s.customer, last.evidence);
    }
  }

  /** The rows from `from` on state what was delivered, in order, each under this customer. */
  ghost predicate FiledUnder(rows: seq<Evidence>, from: nat, customer: nat, ds: seq<Delivery>) {
    && |rows| == from + |ds|
    && forall i | 0 <= i < |ds| ::
      && rows[from + i].customer == customer
      && rows[from + i].order == ds[i].order
      && rows[from + i].key == ds[i].key
      && rows[from + i].occurredAt == ds[i].occurredAt
      && rows[from + i].payload == ds[i].payload
  }

  lemma FiledRowsTell(rows: seq<Evidence>, from: nat, customer: nat, ds: seq<Delivery>)
    requires States(rows, from, Filed(customer, ds)) && |Filed(customer, ds)| == |ds|
    requires forall i | 0 <= i < |ds| :: Filed(customer, ds)[i] == ds[i].(customer := customer)
    ensures FiledUnder(rows, from, customer, ds)
  {}

  // ----- The execution, answer by answer -----

  /** What a connector answers on an attempt: nothing in time once its answers are used up. */
  function AnswerTo(c: Connector, attempt: nat): Attempt {
    if 1 <= attempt && attempt - 1 < |c.answers| then c.answers[attempt - 1] else TimedOut
  }

  predicate Worked(answer: Attempt) {
    answer.Answered? && answer.success
  }

  /** Attempts stop after the first that worked, and after the third in any case. */
  ghost predicate StopsAfter(c: Connector, n: nat) {
    && 1 <= n <= 3
    && (forall k | 1 <= k < n :: !Worked(AnswerTo(c, k)))
    && (n < 3 ==> Worked(AnswerTo(c, n)))
  }

  /** How an attempt is recorded. */
  predicate Records(status: ExecutionStatus, answer: Attempt) {
    && (status == ToolTimeout <==> answer.TimedOut?)
    && (status == ToolSuccess <==> answer.Answered? && answer.success)
    && (status == ToolFailed <==> answer.Raised? || (answer.Answered? && !answer.success))
  }

  /** The stage the timeline stands for, if evidence surfaced and the case has any that is current. */
  ghost function Assembled(surfaced: seq<Delivery>, after: State): seq<StageRequest> {
    if surfaced != [] && exists r: nat :: Usable(after.evidence, after.customer, r) then [Ask(JourneyAssembled)] else []
  }

  /** The stage a kind of action stands for once carried out. */
  function Coordinated(kind: ActionKind): seq<StageRequest> {
    if kind == EscalateItsm || kind == ExecuteRecovery then [Ask(ActionsCoordinated)]
    else if kind == NotifyCustomer then [Ask(CustomerUpdated)]
    else []
  }

  /** How an action ends, given the last answer. */
  predicate EndsAs(status: ActionStatus, last: Attempt) {
    if last.Answered? && last.success then status == if last.needsReview then NeedsManualReview else Succeeded
    else status == Failed
  }

  lemma StopsAfterMade(c: Connector)
    ensures StopsAfter(c, Made(c, 1))
    ensures forall n: nat | StopsAfter(c, n) :: n == Made(c, 1)
  {
    var m := Made(c, 1);
    forall n: nat | StopsAfter(c, n) ensures n == m {
      assert n < m ==> !Succeeds(c, n);
      assert m < n ==> !Worked(AnswerTo(c, m));
    }
  }

  /**
   An execution records one row for each attempt made, numbered from one and saying what the connector
   answered, settles the action by the last answer and writes that as its last entry. If the last attempt
   worked, the timeline's stage is asked for in case evidence surfaced, then the one the action's kind
   stands for; if it did not, no stage is.
   */
  lemma ExecutionFollowsAnswers(s: State, a: nat, c: Connector, raised: seq<Flag>, n: nat)
    requires a < |s.actions| && !SucceededBefore(s.executions, a) && StopsAfter(c, n)
    ensures var after, kind := Execute(s, a, c, raised), s.actions[a].kind;
            && |after.executions| == |s.executions| + n && s.executions <= after.executions
            && (forall k | 1 <= k <= n ::
                  var x := after.executions[|s.executions| + k - 1];
                  x.action == a && x.attempt == k && Records(x.status, AnswerTo(c, k)))
            && |after.actions| == |s.actions|
            && EndsAs(after.actions[a].status, AnswerTo(c, n))
            && (forall b | 0 <= b < |s.actions| && b != a :: after.actions[b] == s.actions[b])
            && after.actions[a] == s.actions[a].(status := after.actions[a].status)
            && after.requests == s.requests + (if Worked(AnswerTo(c, n)) then
                  Assembled(AnswerTo(c, n).evidence, after) + Coordinated(kind) else [])
            && (!Worked(AnswerTo(c, n)) ==> after.stage == s.stage)
            && after.log != [] && after.log[|after.log| - 1] ==
                 Entry(Some(s.caseId), ActionLogged(a, HasFinished(after.actions[a].status)))
  {
    hide AbsorbEvidence, AdvanceStage, Told, Made, Execute;
    StopsAfterMade(c);
    ExecuteEffect(s, a, c, raised);
    RowsRecord(a, c, n);
    SettledAsks(s, a, c, raised);
  }

  lemma RowsRecord(a: nat, c: Connector, n: nat)
    requires 1 <= n <= 3
    ensures var rows := Rows(a, c, 1, n);
            |rows| == n && forall k | 1 <= k <= n ::
              rows[k - 1].action == a && rows[k - 1].attempt == k && Records(rows[k - 1].status, AnswerTo(c, k))
  {}

  lemma SettledAsks(s: State, a: nat, c: Connector, raised: seq<Flag>)
    requires a < |s.actions| && First(s.executions, SuccessOf(a)).None?
    ensures var after, kind, last := Execute(s, a, c, raised), s.actions[a].kind, AnswerTo(c, Made(c, 1));
            && EndsAs(after.actions[a].status, last)
            && after.requests == s.requests + (if Worked(last) then
                  Assembled(last.evidence, after) + Coordinated(kind) else [])
            && (!Worked(last) ==> after.stage == s.stage)
            && after.log != [] && after.log[|after.log| - 1] ==
                 Entry(Some(s.caseId), ActionLogged(a, HasFinished(after.actions[a].status)))
  {
    hide Settled, PictureOf, Assembled, Made, On;
    var s1 := Attempts(Started(s, a), a, c, 1);
    var s2 := Settled(s1, a, c, raised);
    SettlingAsks(s1, a, c, raised);
    SameRowsAssembled(AnswerTo(c, Made(c, 1)), s2, Execute(s, a, c, raised));
  }

  lemma SameRowsAssembled(last: Attempt, before: State, after: State)
    requires after.evidence == before.evidence && after.customer == before.customer
    ensures last.Answered? ==> Assembled(last.evidence, after) == Assembled(last.evidence, before)
  {}

  lemma SettlingAsks(s: State, a: nat, c: Connector, raised: seq<Flag>)
    requires a < |s.actions|
    ensures var after, kind, last := Settled(s, a, c, raised), s.actions[a].kind, AnswerTo(c, Made(c, 1));
            && EndsAs(after.actions[a].status, last)
            && after.requests == s.requests + (if Worked(last) then
                  Assembled(last.evidence, after) + Coordinated(kind) else [])
            && (!Worked(last) ==> after.stage == s.stage)
  {
    hide PictureOf, Assembled, Made, AbsorbEvidence;
    var last := On(c, Made(c, 1));
    if Worked(last) {
      AbsorptionAsks(s, last.evidence, raised);
      SameRowsAssembled(last, AbsorbEvidence(s, last.evidence, raised), Settled(s, a, c, raised));
    }
  }

  lemma AbsorptionAsks(s: State, surfaced: seq<Delivery>, raised: seq<Flag>)
    ensures var after := AbsorbEvidence(s, surfaced, raised);
            after.requests == s.requests + Assembled(surfaced, after)
  {
    hide Told;
    var s1 := IngestAll(s, Filed(s.customer, surfaced));
    HasEvidenceIs(s1);
  }

  lemma HasEvidenceIs(s: State)
    ensures HasEvidence(s) <==> exists r: nat :: Usable(s.evidence, s.customer, r)
  {
    var r := First(s.evidence, IsCurrent(s.customer));
    if r.Some? {
      assert Usable(s.evidence, s.customer, r.value);
    }
  }
}
