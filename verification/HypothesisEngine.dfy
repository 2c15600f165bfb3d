/** Generating hypotheses: grounded in current evidence, scored from links, replacing the last batch. */
module HypothesisEngine {
  import opened Domain
  import opened Sequences
  import opened CaseState
  import opened Confidence
  import opened HypothesisMerge

  // ----- The template path -----

  /** The flag-to-category rules; a flag no rule covers yields nothing. */
  function CategoryFor(f: Flag): Option<Category> {
    match f.description
    case CapturedTwice(_, _) => if f.flagType == Duplicate then Some(DuplicateCharge) else None
    case MissingFollowup(FulfillmentUpdate, Payment, _) => if f.flagType == Missing then Some(FulfillmentNeverStarted)
      else None
    case MissingFollowup(Payment, Return, _) => if f.flagType == Missing then Some(RefundNotIssued) else None
    case DisputedDelivery(_) => if f.flagType == Contradictory then Some(DeliveredButDisputed) else None
    case ConflictingOutcomes(_, _) => if f.flagType == Contradictory then Some(WrongAddressOrFailedDelivery) else None
    case _ => None
  }

  function SpecFor(f: Flag): seq<Spec> {
    match CategoryFor(f)
    case None => []
    case Some(category) => [Spec(category, f.related, [], false)]
  }

  function TemplateSpecs(flags: seq<Flag>): seq<Spec> {
    if flags == [] then [] else TemplateSpecs(flags[..|flags| - 1]) + SpecFor(flags[|flags| - 1])
  }

  method GenerateViaTemplate(flags: seq<Flag>) returns (specs: seq<Spec>)
    ensures specs == TemplateSpecs(flags)
  {
    specs := [];
    for i := 0 to |flags|
      invariant specs == TemplateSpecs(flags[..i])
    {
      assert flags[..i + 1][..i] == flags[..i];
      var category := CategoryFor(flags[i]);
      if category.Some? {
        specs := specs + [Spec(category.value, flags[i].related, [], false)];
      }
    }
    assert flags[..|flags|] == flags;
  }

  // ----- Grounding -----

  /** A citation is valid when it resolves to current evidence of this case. */
  function Citable(rows: seq<Evidence>, customer: nat): nat -> bool {
    (id: nat) => id < |rows| && IsCurrentFor(rows[id], customer)
  }

  function ValidIds(rows: seq<Evidence>, customer: nat, ids: seq<nat>): seq<nat> {
    Filter(ids, Citable(rows, customer))
  }

  function WeightOf(rows: seq<Evidence>): nat -> nat {
    (id: nat) => if id < |rows| then SourceWeight(rows[id].key.source) else 0
  }

  function LinksFor(rows: seq<Evidence>, hypothesis: nat, relation: Relation, ids: seq<nat>): seq<Link> {
    if ids == [] then []
    else
      var id := ids[|ids| - 1];
      LinksFor(rows, hypothesis, relation, ids[..|ids| - 1]) + [Link(hypothesis, id, relation, WeightOf(rows)(id))]
  }

  /** One merged spec: discarded when nothing it cites in support is valid, else stored and audited. */
  function Create(s: State, spec: Spec): State {
    var supports := ValidIds(s.evidence, s.customer, spec.supports);
    var weakens := ValidIds(s.evidence, s.customer, spec.weakens);
    if supports == [] then s
    else
      var h := |s.hypotheses|;
      var links := s.links + LinksFor(s.evidence, h, Supports, supports) + LinksFor(s.evidence, h, Weakens, weakens);
      var confidence := ConfidenceOf(links, h);
      Record(s.(hypotheses := s.hypotheses + [Hypothesis(spec.category, confidence, Active)], links := links),
             HypothesisCreated(h, spec.category, confidence))
  }

  function CreateAll(s: State, specs: seq<Spec>): (r: State)
    ensures r == s.(hypotheses := r.hypotheses, links := r.links, log := r.log, snapshots := r.snapshots)
    ensures |s.hypotheses| <= |r.hypotheses| && r.hypotheses[..|s.hypotheses|] == s.hypotheses
  {
    if specs == [] then s else Create(CreateAll(s, specs[..|specs| - 1]), specs[|specs| - 1])
  }

  // ----- Change-over -----

  predicate IsActive(h: Hypothesis) {
    h.status == Active
  }

  /** Highest confidence among the ACTIVE hypotheses, 0 by default. */
  function TopActive(hypotheses: seq<Hypothesis>): nat {
    if hypotheses == [] then 0
    else
      var top, last := TopActive(hypotheses[..|hypotheses| - 1]), hypotheses[|hypotheses| - 1];
      if IsActive(last) && last.confidence > top then last.confidence else top
  }

  /** The previously active become superseded; the rows from `from` on are the new batch. */
  function Retire(hypotheses: seq<Hypothesis>, from: nat): seq<Hypothesis> {
    seq(|hypotheses|, i requires 0 <= i < |hypotheses| =>
      if i < from && IsActive(hypotheses[i]) then hypotheses[i].(status := Superseded) else hypotheses[i])
  }

  /** The first of the most confident rows from `from` on: sorting in descending order is stable. */
  function Best(hypotheses: seq<Hypothesis>, from: nat): (best: nat)
    requires from < |hypotheses|
    ensures from <= best < |hypotheses|
    ensures forall i | from <= i < |hypotheses| :: hypotheses[i].confidence <= hypotheses[best].confidence
    ensures forall i | from <= i < best :: hypotheses[i].confidence < hypotheses[best].confidence
  {
    var n := |hypotheses| - 1;
    if from == n then n
    else
      var best := Best(hypotheses[..n], from);
      assert forall i | 0 <= i < n :: hypotheses[..n][i] == hypotheses[i];
      if hypotheses[n].confidence > hypotheses[best].confidence then n else best
  }

  function Gap(a: nat, b: nat): nat {
    if a <= b then b - a else a - b
  }

  /** The batch takes over: old hypotheses retire, the best becomes primary, a big shift resets the stage. */
  function TakeOver(s: State, from: nat): (r: State)
    requires from < |s.hypotheses|
    ensures r == s.(hypotheses := Retire(s.hypotheses, from), primary := Some(Best(s.hypotheses, from)),
                    reevaluate := r.reevaluate, stage := r.stage, requests := r.requests,
                    log := r.log, snapshots := r.snapshots)
  {
    var before := s.hypotheses[..from];
    var top := Best(s.hypotheses, from);
    var s1 := AdvanceStage(s.(hypotheses := Retire(s.hypotheses, from), primary := Some(top)), FailureLocated);
    var newTop := s.hypotheses[top].confidence;
    if First(before, IsActive).Some? && Gap(newTop, TopActive(before)) > REEVALUATION_DELTA then
      Record(s1.(reevaluate := true, stage := FailureLocated, requests := s1.requests + [Reset]),
             ReevaluationTriggered(TopActive(before), newTop))
    else s1
  }

  /** Generation from the given proposals, whoever made them. */
  function Generated(s: State, specs: seq<Spec>): State {
    if !HasEvidence(s) || specs == [] then s
    else
      var s1 := CreateAll(s, Merge(specs));
      if |s1.hypotheses| == |s.hypotheses| then s1 else TakeOver(s1, |s.hypotheses|)
  }
}
