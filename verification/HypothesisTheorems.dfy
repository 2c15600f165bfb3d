/** What holds of the hypotheses and the stage of every reachable case. */
module HypothesisTheorems {
  import opened Domain
  import opened Sequences
  import opened CaseState
  import opened Confidence
  import opened HypothesisMerge
  import opened HypothesisEngine
  import opened HypothesisInvariants
  import opened NbaEngine
  import opened Executor
  import opened Orchestrator
  import opened ActionSafety
  import opened Uncertainty
  import opened FlagRules
  import opened Tracing
  import opened TracedSteps
  import opened Runs

  /** One batch is active, its categories differ, and the primary is its most confident member. */
  lemma OneActiveBatch(caseId: nat, customer: nat, prior: seq<Delivery>, ops: seq<Op>)
    ensures var s := Case(caseId, customer, prior, ops);
            && (exists from :: ActiveFrom(s.hypotheses, from))
            && (s.primary.None? <==> s.hypotheses == [])
            && (s.primary.Some? ==>
                  && s.primary.value < |s.hypotheses|
                  && IsActive(s.hypotheses[s.primary.value])
                  && s.hypotheses[s.primary.value].confidence == TopActive(s.hypotheses)
                  && forall i | 0 <= i < |s.hypotheses| && IsActive(s.hypotheses[i]) ::
                       s.hypotheses[i].confidence <= s.hypotheses[s.primary.value].confidence)
  {
    hide Case, Scored;
    CaseHolds(caseId, customer, prior, ops);
    PreviousTopIsPrimary(Case(caseId, customer, prior, ops));
  }

  /** Every stored hypothesis is supported by evidence of the case and scored from its links. */
  lemma EveryHypothesisIsGrounded(caseId: nat, customer: nat, prior: seq<Delivery>, ops: seq<Op>, h: nat)
    requires h < |Case(caseId, customer, prior, ops).hypotheses|
    ensures var s := Case(caseId, customer, prior, ops);
            && Supported(s.evidence, s.customer, s.links, h)
            && s.hypotheses[h].confidence == ConfidenceOf(s.links, h) <= ONE
  {
    CaseHolds(caseId, customer, prior, ops);
    var s := Case(caseId, customer, prior, ops);
    ConfidenceInUnit(s.links, h);
  }

  /** The engine's test that the primary is ACTIVE never fails: it always works from the primary. */
  lemma PrimaryIsAlwaysActive(caseId: nat, customer: nat, prior: seq<Delivery>, ops: seq<Op>)
    ensures Grounds(Case(caseId, customer, prior, ops)) == Case(caseId, customer, prior, ops).primary
  {
    CaseHolds(caseId, customer, prior, ops);
  }

  /** Only a generation touches hypotheses, their links and the primary. */
  lemma OnlyGenerationTouches(s: State, op: Op)
    requires Safe(s) && !op.Regenerate?
    ensures var after := Apply(s, op);
            after.hypotheses == s.hypotheses && after.links == s.links && after.primary == s.primary
  {
    hide Safe, Decide, Settled, Attempts;
    match op
    case DecideNext(scan, exposure) => DecideFrame(s, scan, exposure);
    case Run(a, c, raised) => RunLeavesHypotheses(s, a, c, raised);
    case _ =>
  }

  lemma RunLeavesHypotheses(s: State, a: nat, c: Connector, raised: seq<Flag>)
    ensures var after := ExecuteIfReady(s, a, c, raised);
            after.hypotheses == s.hypotheses && after.links == s.links && after.primary == s.primary
  {
    hide Reconciled, AdvanceStage;
  }

  /** Where the last generation that created something put its first row. */
  function BatchStart(s: State, ops: seq<Op>): nat {
    if ops == [] then 0
    else
      var before, after := Play(s, ops[..|ops| - 1]), Play(s, ops);
      if |after.hypotheses| > |before.hypotheses| then |before.hypotheses| else BatchStart(s, ops[..|ops| - 1])
  }

  /** After every run, the active hypotheses are exactly those of the last generation that created any. */
  lemma {:induction false} LastBatchIsActive(caseId: nat, customer: nat, prior: seq<Delivery>, ops: seq<Op>)
    ensures ActiveFrom(Case(caseId, customer, prior, ops).hypotheses, BatchStart(Opened(caseId, customer, prior), ops))
  {
    hide Apply, Inv, ActiveFrom;
    if ops == [] {
      NothingIsActive();
    } else {
      var rest, op := ops[..|ops| - 1], ops[|ops| - 1];
      LastBatchIsActive(caseId, customer, prior, rest);
      CaseHolds(caseId, customer, prior, rest);
      NextBatch(Case(caseId, customer, prior, rest), op, BatchStart(Opened(caseId, customer, prior), rest));
    }
  }

  lemma NothingIsActive()
    ensures ActiveFrom([], 0)
  {}

  lemma NextBatch(s: State, op: Op, from: nat)
    requires Inv(s) && ActiveFrom(s.hypotheses, from)
    ensures var after, n := Apply(s, op), |s.hypotheses|;
            if |after.hypotheses| > n then op.Regenerate? && ActiveFrom(after.hypotheses, n)
            else ActiveFrom(after.hypotheses, from) && after.primary == s.primary
  {
    hide Safe, Traced, Scored, StoreOk, Generated, Decide, ExecuteIfReady, Reconciled;
    if op.Regenerate? {
      GeneratedKeepsLed(s, op.specs);
    } else {
      OnlyGenerationTouches(s, op);
    }
  }

  // ----- Grounding at creation -----

  /** A link of a new hypothesis to evidence that is current right now. */
  ghost predicate CitesCurrent(s: State, l: Link) {
    l.hypothesis == |s.hypotheses| && l.evidence < |s.evidence| && IsCurrentFor(s.evidence[l.evidence], s.customer)
    && l.weight == SourceWeight(s.evidence[l.evidence].key.source)
  }

  /** Current evidence of the case: its customer's, not superseded, no repeat. */
  predicate MayBeCited(s: State, id: nat) {
    Usable(s.evidence, s.customer, id)
  }

  ghost predicate LinkedAfter(s: State, after: State, id: nat, relation: Relation) {
    exists l :: |s.links| <= l < |after.links| && after.links[l].evidence == id && after.links[l].relation == relation
  }

  lemma {:induction false} LinksCite(s: State, relation: Relation, ids: seq<nat>)
    requires forall id | id in ids :: Citable(s.evidence, s.customer)(id)
    ensures var links := LinksFor(s.evidence, |s.hypotheses|, relation, ids);
            && |links| == |ids|
            && forall k | 0 <= k < |links| ::
              CitesCurrent(s, links[k]) && links[k].relation == relation && links[k].evidence == ids[k]
  {
    if ids != [] {
      var n := |ids| - 1;
      assert forall id | id in ids[..n] :: id in ids;
      LinksCite(s, relation, ids[..n]);
      assert ids[n] in ids;
    }
  }

  /**
   A spec is stored exactly when some row it cites in support is current evidence of the case;
   it then gets links to exactly the rows of that sort it cites, for it or against it, the first one for it.
   */
  lemma StoredExactlyWhenGrounded(s: State, spec: Spec)
    ensures var after := Create(s, spec);
            && (|after.hypotheses| == |s.hypotheses| + 1 <==> exists id :: id in spec.supports && MayBeCited(s, id))
            && (|after.hypotheses| != |s.hypotheses| + 1 ==> after == s)
            && |s.links| <= |after.links| && after.links[..|s.links|] == s.links
            && (forall l | |s.links| <= l < |after.links| :: CitesCurrent(s, after.links[l]))
            && (after != s ==> |after.links| > |s.links| && after.links[|s.links|].relation == Supports)
            && (after != s ==> forall id ::
                  && (LinkedAfter(s, after, id, Supports) <==> id in spec.supports && MayBeCited(s, id))
                  && (LinkedAfter(s, after, id, Weakens) <==> id in spec.weakens && MayBeCited(s, id)))
  {
    hide LinksFor, ConfidenceOf, Filter;
    var supports, weakens := ValidIds(s.evidence, s.customer, spec.supports),
      ValidIds(s.evidence, s.customer, spec.weakens);
    FilterNone(spec.supports, Citable(s.evidence, s.customer));
    FilterMembers(spec.supports, Citable(s.evidence, s.customer));
    FilterMembers(spec.weakens, Citable(s.evidence, s.customer));
    LinksCite(s, Supports, supports);
    LinksCite(s, Weakens, weakens);
    var left, right := LinksFor(s.evidence, |s.hypotheses|, Supports, supports),
      LinksFor(s.evidence, |s.hypotheses|, Weakens, weakens);
    var after := Create(s, spec);
    forall l | |s.links| <= l < |after.links| ensures CitesCurrent(s, after.links[l]) {
      if l < |s.links| + |left| {
        assert after.links[l] == left[l - |s.links|];
      } else {
        assert after.links[l] == right[l - |s.links| - |left|];
      }
    }
    if after != s {
      assert after.links[|s.links|] == left[0];
      forall id
        ensures LinkedAfter(s, after, id, Supports) <==> id in supports
        ensures LinkedAfter(s, after, id, Weakens) <==> id in weakens
      {
        LinkedInParts(s, after, left, right, supports, weakens, id);
      }
    }
  }

  lemma LinkedInParts(
    s: State, after: State, left: seq<Link>, right: seq<Link>, supports: seq<nat>, weakens: seq<nat>, id: nat)
    requires after.links == s.links + left + right && |left| == |supports| && |right| == |weakens|
    requires forall k | 0 <= k < |left| :: left[k].relation == Supports && left[k].evidence == supports[k]
    requires forall k | 0 <= k < |right| :: right[k].relation == Weakens && right[k].evidence == weakens[k]
    ensures LinkedAfter(s, after, id, Supports) <==> id in supports
    ensures LinkedAfter(s, after, id, Weakens) <==> id in weakens
  {
    if id in supports {
      var k :| 0 <= k < |supports| && supports[k] == id;
      assert after.links[|s.links| + k] == left[k];
    }
    if id in weakens {
      var k :| 0 <= k < |weakens| && weakens[k] == id;
      assert after.links[|s.links| + |left| + k] == right[k];
    }
  }

  // ----- Re-evaluation -----

  /** Flags that detection raises cite no row twice. */
  lemma DetectedFlagsAreClean(rows: seq<Evidence>, customer: nat, now: int, open: set<Description>, flags: seq<Flag>)
    requires Detects(rows, customer, now, open, flags)
    ensures CleanFlags(flags)
  {
    forall f | f in flags ensures NoDuplicates(f.related) {
      var k :| 0 <= k < |flags| && flags[k] == f;
      assert Justified(rows, customer, now, flags[k]);
    }
  }

  /**
   In any reachable case, generating from the templates twice in a row, the flags listed in any
   order the second time, never marks the case for re-evaluation and never moves its stage back.
   */
  lemma RegeneratingChangesNothing(caseId: nat, customer: nat, prior: seq<Delivery>, ops: seq<Op>, permuted: seq<Flag>)
    requires multiset(permuted) == multiset(Case(caseId, customer, prior, ops).flags)
    ensures var once := Generated(Case(caseId, customer, prior, ops),
            TemplateSpecs(Case(caseId, customer, prior, ops).flags));
            var twice := Generated(once, TemplateSpecs(permuted));
            |once.hypotheses| > |Case(caseId, customer, prior, ops).hypotheses| ==>
              && twice.reevaluate == once.reevaluate
              && !Earlier(twice.stage, once.stage)
              && TopActive(twice.hypotheses) == TopActive(once.hypotheses)
  {
    CaseHolds(caseId, customer, prior, ops);
    var s := Case(caseId, customer, prior, ops);
    if |Generated(s, TemplateSpecs(s.flags)).hypotheses| > |s.hypotheses| {
      RegenerationIsStable(s, s.flags, permuted);
      var once := Generated(s, TemplateSpecs(s.flags));
      EarlierIs(Generated(once, TemplateSpecs(permuted)).stage, once.stage);
    }
  }

  /**
   A generation that creates something triggers re-evaluation exactly when the new primary's
   confidence differs from the old primary's by more than 0.15, either way; the first never does.
   */
  lemma ReevaluationExactlyOnBigShift(caseId: nat, customer: nat, prior: seq<Delivery>, ops: seq<Op>, specs: seq<Spec>)
    requires |Generated(Case(caseId, customer, prior, ops), specs).hypotheses|
             > |Case(caseId, customer, prior, ops).hypotheses|
    ensures var s, after := Case(caseId, customer, prior, ops), Generated(Case(caseId, customer, prior, ops), specs);
            && after.primary.Some? && after.primary.value < |after.hypotheses|
            && (s.primary.Some? ==> s.primary.value < |s.hypotheses|)
            && var top := after.hypotheses[after.primary.value].confidence;
               var shifted := s.primary.Some? &&
                 (top > s.hypotheses[s.primary.value].confidence + 1_500
                  || s.hypotheses[s.primary.value].confidence > top + 1_500);
               && (shifted ==> after.reevaluate && after.stage == FailureLocated
                               && after.requests == s.requests + [Ask(FailureLocated), Reset]
                               && after.log != [] && after.log[|after.log| - 1] == Entry(Some(s.caseId),
                                    ReevaluationTriggered(s.hypotheses[s.primary.value].confidence, top)))
               && (!shifted ==>
                 && after.reevaluate == s.reevaluate && after.requests == s.requests + [Ask(FailureLocated)]
                 && forall k | |s.log| <= k < |after.log| :: !after.log[k].event.ReevaluationTriggered?)
  {
    hide Play;
    CaseHolds(caseId, customer, prior, ops);
    ShiftDecides(Case(caseId, customer, prior, ops), specs);
  }

  lemma {:induction false} CreatingTriggersNothing(s: State, specs: seq<Spec>)
    ensures var after := CreateAll(s, specs);
            && s.log <= after.log
            && forall k | |s.log| <= k < |after.log| :: !after.log[k].event.ReevaluationTriggered?
  {
    if specs != [] {
      CreatingTriggersNothing(s, specs[..|specs| - 1]);
    }
  }

  lemma ShiftDecides(s: State, specs: seq<Spec>)
    requires Led(s) && |Generated(s, specs).hypotheses| > |s.hypotheses|
    ensures var after := Generated(s, specs);
            && after.primary.Some? && after.primary.value < |after.hypotheses|
            && (s.primary.Some? ==> s.primary.value < |s.hypotheses|)
            && var top := after.hypotheses[after.primary.value].confidence;
               var shifted := s.primary.Some? &&
                 (top > s.hypotheses[s.primary.value].confidence + 1_500
                  || s.hypotheses[s.primary.value].confidence > top + 1_500);
               && (shifted ==> after.reevaluate && after.stage == FailureLocated
                               && after.requests == s.requests + [Ask(FailureLocated), Reset]
                               && after.log != [] && after.log[|after.log| - 1] == Entry(Some(s.caseId),
                                    ReevaluationTriggered(s.hypotheses[s.primary.value].confidence, top)))
               && (!shifted ==>
                 && after.reevaluate == s.reevaluate && after.requests == s.requests + [Ask(FailureLocated)]
                 && forall k | |s.log| <= k < |after.log| :: !after.log[k].event.ReevaluationTriggered?)
  {
    hide CreateAll, Merge, TopActive, NewHypotheses, Scored, ActiveFrom, HasEvidence;
    PreviousTopIsPrimary(s);
    GeneratedTop(s, specs);
    var s1 := CreateAll(s, Merge(specs));
    CreatingTriggersNothing(s, Merge(specs));
    assert s1.hypotheses[..|s.hypotheses|] == s.hypotheses;
    assert s.requests + [Ask(FailureLocated), Reset] == s.requests + [Ask(FailureLocated)] + [Reset];
  }

  // ----- Stage -----

  /** The stage is the furthest of everything asked for since the last reset, and of where that left it. */
  lemma StageClosedForm(caseId: nat, customer: nat, prior: seq<Delivery>, ops: seq<Op>)
    ensures var s := Case(caseId, customer, prior, ops);
            && !Earlier(s.stage, Base(s.requests))
            && (s.stage == Base(s.requests) || s.stage in SinceReset(s.requests))
            && (forall asked | asked in SinceReset(s.requests) :: !Earlier(s.stage, asked))
            && (Base(s.requests) == if Reset in s.requests then FailureLocated else IssueReported)
  {
    CaseHolds(caseId, customer, prior, ops);
    forall stage { EarlierIs(Case(caseId, customer, prior, ops).stage, stage); }
  }

  /** A take-over that resets the stage has first asked for the stage it resets to. */
  lemma ResetAsksFirst(s: State, from: nat)
    requires Traced(s) && from < |s.hypotheses|
    ensures var after := TakeOver(s, from);
            || (after.requests == s.requests + [Ask(FailureLocated)] && Index(after.stage) >= Index(s.stage))
            || (after.requests == s.requests + [Ask(FailureLocated), Reset]
                && after.stage == FailureLocated
                && Index(after.stage) <= Index(AdvanceStage(s, FailureLocated).stage))
  {
    TakeOverTraced(s, from);
    assert s.requests + [Ask(FailureLocated), Reset] == s.requests + [Ask(FailureLocated)] + [Reset];
  }
}
