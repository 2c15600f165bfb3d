/** How many distinct records the action threshold takes, and what citing one record repeatedly does. */
module Corroboration {
  import opened Domain
  import opened Sequences
  import opened CaseState
  import opened Confidence
  import opened HypothesisMerge
  import opened HypothesisEngine
  import opened HypothesisInvariants
  import opened HypothesisTheorems
  import opened NbaEngine
  import opened Executor
  import opened Orchestrator
  import opened Uncertainty
  import opened ActionSafety
  import opened Tracing
  import opened Runs

  // ----- One spec -----

  /** The records of the case that a spec counts in support. */
  function Records(rows: seq<Evidence>, customer: nat, spec: Spec): set<nat> {
    Elements(ValidIds(rows, customer, spec.supports))
  }

  lemma {:induction false} TotalOfOne(ids: seq<nat>, id: nat, w: nat -> nat)
    requires forall i | 0 <= i < |ids| :: ids[i] == id
    ensures Total(ids, w) == |ids| * w(id)
  {
    if ids != [] {
      TotalOfOne(ids[..|ids| - 1], id, w);
      assert |ids| * w(id) == (|ids| - 1) * w(id) + w(id);
    }
  }

  /**
   One record of weight w, cited n times: exactly when it exceeds one half and when it reaches the
   threshold. Cited once, it does neither.
   */
  lemma OneRecordReaches(rows: seq<Evidence>, customer: nat, spec: Spec, id: nat)
    requires Records(rows, customer, spec) == {id}
    ensures var n, w := |ValidIds(rows, customer, spec.supports)|, WeightOf(rows)(id);
            var against := Total(ValidIds(rows, customer, spec.weakens), WeightOf(rows));
            && (Score(rows, customer, spec) > 5_000 <==> 9_999 * (n * w) > 10_001 * (against + UNIT))
            && (Score(rows, customer, spec) >= ACTION_THRESHOLD <==> 8_001 * (n * w) >= 11_999 * (against + UNIT))
            && (against == 0 ==> (Score(rows, customer, spec) > 5_000 <==> n * w >= 11))
            && (against == 0 ==> (Score(rows, customer, spec) >= ACTION_THRESHOLD <==> n * w >= 15))
            && (n == 1 ==> Score(rows, customer, spec) <= 5_000)
  {
    var ids, against := ValidIds(rows, customer, spec.supports),
      Total(ValidIds(rows, customer, spec.weakens), WeightOf(rows));
    forall i | 0 <= i < |ids| ensures ids[i] == id {
      assert ids[i] in Elements(ids);
    }
    TotalOfOne(ids, id, WeightOf(rows));
    var total := |ids| * WeightOf(rows)(id);
    HalfExactly(total, against);
    ThresholdExactly(total, against);
  }

  /** A spec that cites nothing twice in support reaches the threshold on two records or more, never on one. */
  lemma ReachingTakesTwoRecords(rows: seq<Evidence>, customer: nat, spec: Spec)
    requires NoDuplicates(spec.supports)
    ensures Score(rows, customer, spec) >= ACTION_THRESHOLD ==> |Records(rows, customer, spec)| >= 2
  {
    var ids := ValidIds(rows, customer, spec.supports);
    FilterDistinct(spec.supports, Citable(rows, customer));
    DistinctLength(ids);
    ThresholdExactly(Total(ids, WeightOf(rows)), Total(ValidIds(rows, customer, spec.weakens), WeightOf(rows)));
    TotalBound(ids, WeightOf(rows));
  }

  lemma {:induction false} TotalBound(ids: seq<nat>, w: nat -> nat)
    requires forall id :: w(id) <= UNIT
    ensures Total(ids, w) <= UNIT * |ids|
  {
    if ids != [] {
      TotalBound(ids[..|ids| - 1], w);
    }
  }

  // ----- Every run -----

  /** The records a stored hypothesis is linked to in support. */
  function Backing(links: seq<Link>, h: nat): set<nat> {
    set l | l in links && IsSupport(h)(l) :: l.evidence
  }

  /** Being as confident as actions require takes two records. */
  ghost predicate Corroborated(hypotheses: seq<Hypothesis>, links: seq<Link>) {
    forall h: nat | h < |hypotheses| && hypotheses[h].confidence >= ACTION_THRESHOLD :: |Backing(links, h)| >= 2
  }

  /** Nothing a generation stores cites a record twice in support; merging sees to that from the second spec on. */
  ghost predicate CitesOnce(op: Op) {
    op.Regenerate? ==> forall spec | spec in Merge(op.specs) :: NoDuplicates(spec.supports)
  }

  lemma BackingGrows(links: seq<Link>, more: seq<Link>, h: nat)
    requires links <= more && |Backing(links, h)| >= 2
    ensures |Backing(more, h)| >= 2
  {
    assert Backing(links, h) <= Backing(more, h);
    AtLeast(Backing(links, h), Backing(more, h));
  }

  lemma AtLeast(some: set<nat>, all: set<nat>)
    requires some <= all
    ensures |some| <= |all|
  {
    assert all == some + (all - some);
  }

  /** The new row of a spec is linked to each record the spec counts. */
  lemma CreatedIsBacked(s: State, spec: Spec)
    requires Scored(s) && Create(s, spec) != s
    ensures Records(s.evidence, s.customer, spec) <= Backing(Create(s, spec).links, |s.hypotheses|)
  {
    var n, after := |s.hypotheses|, Create(s, spec);
    var supports := ValidIds(s.evidence, s.customer, spec.supports);
    var left := LinksFor(s.evidence, n, Supports, supports);
    FilterMembers(spec.supports, Citable(s.evidence, s.customer));
    LinksCite(s, Supports, supports);
    forall id | id in supports ensures id in Backing(after.links, n) {
      var k :| 0 <= k < |supports| && supports[k] == id;
      assert after.links[|s.links| + k] == left[k];
      assert left[k] in after.links && IsSupport(n)(left[k]);
    }
  }

  lemma CreateKeepsCorroborated(s: State, spec: Spec, after: State)
    requires Scored(s) && Corroborated(s.hypotheses, s.links) && NoDuplicates(spec.supports) && after == Create(s, spec)
    ensures Scored(after) && Corroborated(after.hypotheses, after.links)
  {
    hide Backing, Score, Create, Scored;
    CreateKeepsScored(s, spec);
    StoredExactlyWhenGrounded(s, spec);
    if after != s {
      var n := |s.hypotheses|;
      assert s.links <= after.links;
      ReachingTakesTwoRecords(s.evidence, s.customer, spec);
      CreatedIsBacked(s, spec);
      AtLeast(Records(s.evidence, s.customer, spec), Backing(after.links, n));
      forall h: nat | h <= n && after.hypotheses[h].confidence >= ACTION_THRESHOLD
        ensures |Backing(after.links, h)| >= 2 {
        if h < n {
          BackingGrows(s.links, after.links, h);
        }
      }
    }
  }

  lemma {:induction false} CreateAllKeepsCorroborated(s: State, specs: seq<Spec>)
    requires Scored(s) && Corroborated(s.hypotheses, s.links)
    requires forall spec | spec in specs :: NoDuplicates(spec.supports)
    ensures Scored(CreateAll(s, specs)) && Corroborated(CreateAll(s, specs).hypotheses, CreateAll(s, specs).links)
  {
    hide Create, Scored, Corroborated;
    if specs != [] {
      var rest, spec := specs[..|specs| - 1], specs[|specs| - 1];
      assert specs == rest + [spec];
      CreateAllKeepsCorroborated(s, rest);
      CreateKeepsCorroborated(CreateAll(s, rest), spec, CreateAll(s, specs));
    }
  }

  lemma ApplyKeepsCorroborated(s: State, op: Op)
    requires Inv(s) && CitesOnce(op) && Corroborated(s.hypotheses, s.links)
    ensures Corroborated(Apply(s, op).hypotheses, Apply(s, op).links)
  {
    hide Apply, Scored, CreateAll, Safe, Traced, StoreOk, Merge, Backing;
    if op.Regenerate? {
      CreateAllKeepsCorroborated(s, Merge(op.specs));
      RetiringKeepsScores(s, op.specs);
    } else {
      OnlyGenerationTouches(s, op);
    }
  }

  lemma RetiringKeepsScores(s: State, specs: seq<Spec>)
    ensures var s1, after := CreateAll(s, Merge(specs)), Apply(s, Regenerate(specs));
            || (after.hypotheses == s.hypotheses && after.links == s.links)
            || (after.links == s1.links && |after.hypotheses| == |s1.hypotheses|
                && forall h | 0 <= h < |s1.hypotheses| :: after.hypotheses[h].confidence == s1.hypotheses[h].confidence)
  {
    hide CreateAll, Merge;
  }

  /**
   Over every run whose generations cite no record twice within a category, a hypothesis confident
   enough to act on rests on two distinct records or more.
   */
  lemma {:induction false} ActingTakesTwoRecords(caseId: nat, customer: nat, prior: seq<Delivery>, ops: seq<Op>)
    requires forall op | op in ops :: CitesOnce(op)
    ensures Corroborated(Case(caseId, customer, prior, ops).hypotheses, Case(caseId, customer, prior, ops).links)
  {
    hide Apply, Inv, CitesOnce, Corroborated;
    if ops == [] {
      NothingToCorroborate();
    } else {
      var rest := ops[..|ops| - 1];
      assert ops == rest + [ops[|ops| - 1]];
      ActingTakesTwoRecords(caseId, customer, prior, rest);
      CaseHolds(caseId, customer, prior, rest);
      ApplyKeepsCorroborated(Case(caseId, customer, prior, rest), ops[|ops| - 1]);
    }
  }

  lemma NothingToCorroborate()
    ensures Corroborated([], [])
  {}

  /** Templates of flags that cite no row twice, as detected ones never do, cite once. */
  lemma TemplatesCiteOnce(flags: seq<Flag>)
    requires CleanFlags(flags)
    ensures CitesOnce(Regenerate(TemplateSpecs(flags)))
  {
    TemplateClean(flags);
    WhenCitesOnce(TemplateSpecs(flags));
  }

  /** When that is so: the category is fed by two specs or more, or every spec cites once to begin with. */
  lemma WhenCitesOnce(specs: seq<Spec>)
    requires forall spec | spec in specs :: Clean(spec) || Count(specs, OfCategory(spec.category)) >= 2
    ensures CitesOnce(Regenerate(specs))
  {
    forall entry | entry in Merge(specs) ensures NoDuplicates(entry.supports) {
      var k :| 0 <= k < |Merge(specs)| && Merge(specs)[k] == entry;
      MergedEntryIsClean(specs, k);
    }
  }

  // ----- Runs on detected flags and templates alone -----

  /** What detection raises, on some evidence and at some time. */
  ghost predicate Detected(customer: nat, raised: seq<Flag>) {
    exists rows, now, open :: Detects(rows, customer, now, open, raised)
  }

  /** Flags are what detection raises, and hypotheses what the templates make of the open flags. */
  ghost predicate ByTemplate(s: State, op: Op) {
    match op
    case Reconcile(raised) => Detected(s.customer, raised)
    case Run(_, _, raised) => Detected(s.customer, raised)
    case Regenerate(specs) => exists listed :: multiset(listed) == multiset(s.flags) && specs == TemplateSpecs(listed)
    case _ => true
  }

  lemma CleanTogether(flags: seq<Flag>, raised: seq<Flag>)
    requires CleanFlags(flags) && CleanFlags(raised)
    ensures CleanFlags(flags + raised)
  {}

  lemma RaisedAreClean(customer: nat, raised: seq<Flag>)
    requires Detected(customer, raised)
    ensures CleanFlags(raised)
  {
    hide Detects;
    var rows, now, open :| Detects(rows, customer, now, open, raised);
    DetectedFlagsAreClean(rows, customer, now, open, raised);
  }

  lemma RunRaises(s: State, a: nat, c: Connector, raised: seq<Flag>)
    ensures var after := ExecuteIfReady(s, a, c, raised); after.flags == s.flags || after.flags == s.flags + raised
  {}

  lemma FlagsStayClean(s: State, op: Op)
    requires Safe(s) && CleanFlags(s.flags) && ByTemplate(s, op)
    ensures CleanFlags(Apply(s, op).flags)
  {
    hide Detected, CleanFlags, Generated, Decide, ExecuteIfReady, Safe;
    match op
    case Reconcile(raised) =>
      RaisedAreClean(s.customer, raised);
      CleanTogether(s.flags, raised);
    case Run(a, c, raised) =>
      RaisedAreClean(s.customer, raised);
      CleanTogether(s.flags, raised);
      RunRaises(s, a, c, raised);
    case Regenerate(specs) => GeneratedFrame(s, specs);
    case DecideNext(scan, exposure) => DecideFrame(s, scan, exposure);
    case _ =>
  }

  lemma ByTemplateCitesOnce(s: State, op: Op)
    requires CleanFlags(s.flags) && ByTemplate(s, op)
    ensures CitesOnce(op)
  {
    if op.Regenerate? {
      var listed :| multiset(listed) == multiset(s.flags) && op.specs == TemplateSpecs(listed);
      SameFlags(listed, s.flags);
      TemplatesCiteOnce(listed);
    }
  }

  lemma StepByTemplate(s: State, op: Op)
    requires Inv(s) && CleanFlags(s.flags) && Corroborated(s.hypotheses, s.links) && ByTemplate(s, op)
    ensures CleanFlags(Apply(s, op).flags) && Corroborated(Apply(s, op).hypotheses, Apply(s, op).links)
  {
    hide CleanFlags, Corroborated, ByTemplate, Apply, CitesOnce, Led, StoreOk, Traced;
    FlagsStayClean(s, op);
    ByTemplateCitesOnce(s, op);
    ApplyKeepsCorroborated(s, op);
  }

  /**
   Over every run whose flags come from detection and whose hypotheses come from the templates, no
   flag cites a row twice and a hypothesis confident enough to act on rests on two records or more.
   */
  lemma {:induction false} TemplateRunsTakeTwoRecords(caseId: nat, customer: nat, prior: seq<Delivery>, ops: seq<Op>)
    requires forall i | 0 <= i < |ops| :: ByTemplate(Case(caseId, customer, prior, ops[..i]), ops[i])
    ensures var s := Case(caseId, customer, prior, ops); CleanFlags(s.flags) && Corroborated(s.hypotheses, s.links)
  {
    hide Apply, Inv, ByTemplate, Corroborated;
    if ops == [] {
      NothingToCorroborate();
    } else {
      var n := |ops| - 1;
      forall i | 0 <= i < n ensures ByTemplate(Case(caseId, customer, prior, ops[..n][..i]), ops[..n][i]) {
        assert ops[..n][..i] == ops[..i] && ops[..n][i] == ops[i];
      }
      TemplateRunsTakeTwoRecords(caseId, customer, prior, ops[..n]);
      CaseHolds(caseId, customer, prior, ops[..n]);
      StepByTemplate(Case(caseId, customer, prior, ops[..n]), ops[n]);
    }
  }
}
