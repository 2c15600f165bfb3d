/**
 What generating hypotheses stores, as rules over the rows: which flags suggest what, what evidence weighs
 and how confidence follows from it. Every generation, and every case any run reaches, obeys them.
 */
module GenerationRules {
  import opened Domain
  import opened Rounding
  import opened Sequences
  import opened CaseState
  import opened Confidence
  import opened HypothesisMerge
  import opened HypothesisEngine
  import opened HypothesisInvariants
  import opened HypothesisTheorems
  import opened EvidenceStore
  import opened NbaEngine
  import opened Approvals
  import opened Orchestrator
  import opened ActionSafety
  import opened Runs
  import opened AppendOnly

  // ----- The templates -----

  /** The category a flag suggests. */
  predicate Suggests(f: Flag, c: Category) {
    || (c == DuplicateCharge && f.flagType == Duplicate && f.description.CapturedTwice?)
    || (c == WrongAddressOrFailedDelivery && f.flagType == Contradictory && f.description.ConflictingOutcomes?)
    || (c == DeliveredButDisputed && f.flagType == Contradictory && f.description.DisputedDelivery?)
    || (c == FulfillmentNeverStarted && f.flagType == Missing && f.description.MissingFollowup?
        && f.description.expected == FulfillmentUpdate && f.description.after == Payment)
    || (c == RefundNotIssued && f.flagType == Missing && f.description.MissingFollowup?
        && f.description.expected == Payment && f.description.after == Return)
  }

  lemma SuggestionIs(f: Flag, c: Category)
    ensures Suggests(f, c) <==> CategoryFor(f) == Some(c)
  {}

  /**
   The templates: exactly the flags that suggest something become proposals, in their order, each citing
   the rows of its flag in support and nothing against.
   */
  ghost predicate Templated(flags: seq<Flag>, specs: seq<Spec>, from: seq<nat>) {
    && |from| == |specs|
    && (forall k, l | 0 <= k < l < |from| :: from[k] < from[l])
    && (forall k | 0 <= k < |specs| ::
          && from[k] < |flags|
          && Suggests(flags[from[k]], specs[k].category)
          && specs[k] == Spec(specs[k].category, flags[from[k]].related, [], false))
    && (forall f, c | 0 <= f < |flags| && Suggests(flags[f], c) :: f in from)
  }

  lemma {:induction false} TemplatesFollowFlags(flags: seq<Flag>)
    ensures exists from :: Templated(flags, TemplateSpecs(flags), from)
  {
    hide Templated, Suggests, CategoryFor;
    if flags == [] {
      NothingTemplated();
      assert TemplateSpecs(flags) == [];
    } else {
      var n, last := |flags| - 1, flags[|flags| - 1];
      TemplatesFollowFlags(flags[..n]);
      var from :| Templated(flags[..n], TemplateSpecs(flags[..n]), from);
      assert TemplateSpecs(flags) == TemplateSpecs(flags[..n]) + SpecFor(last);
      if CategoryFor(last).Some? {
        SuggestionIs(last, CategoryFor(last).value);
        OneMoreSpec(flags, TemplateSpecs(flags[..n]), from, CategoryFor(last).value);
      } else {
        NoMoreSpec(flags, TemplateSpecs(flags[..n]), from);
        assert TemplateSpecs(flags) == TemplateSpecs(flags[..n]);
      }
    }
  }

  lemma NothingTemplated()
    ensures Templated([], [], [])
  {}

  lemma OneMoreSpec(flags: seq<Flag>, specs: seq<Spec>, from: seq<nat>, category: Category)
    requires flags != [] && Templated(flags[..|flags| - 1], specs, from) && Suggests(flags[|flags| - 1], category)
    ensures Templated(flags, specs + [Spec(category, flags[|flags| - 1].related, [], false)], from + [|flags| - 1])
  {
    hide Suggests;
    var n := |flags| - 1;
    var more := from + [n];
    forall f, c | 0 <= f < |flags| && Suggests(flags[f], c) ensures f in more {
      if f < n {
        assert Suggests(flags[..n][f], c);
      } else {
        assert more[|from|] == n;
      }
    }
  }

  lemma NoMoreSpec(flags: seq<Flag>, specs: seq<Spec>, from: seq<nat>)
    requires flags != [] && Templated(flags[..|flags| - 1], specs, from)
    requires CategoryFor(flags[|flags| - 1]).None?
    ensures Templated(flags, specs, from)
  {
    hide Suggests;
    var n := |flags| - 1;
    forall f, c | 0 <= f < |flags| && Suggests(flags[f], c) ensures f in from {
      SuggestionIs(flags[f], c);
      assert f < n && Suggests(flags[..n][f], c);
    }
  }

  // ----- Weights -----

  /** How reliable a source is, in tenths. */
  predicate Weighs(source: Source, tenths: nat) {
    || (tenths == 10 && source in {Order, Payment, StoreTransaction})
    || (tenths == 9 && source in {FulfillmentUpdate, Return, ItsmIncident})
    || (tenths == 7 && source == ContactCenterRecord)
    || (tenths == 5 && source == WebAppEvent)
  }

  lemma WeightIs(source: Source, tenths: nat)
    ensures Weighs(source, tenths) <==> tenths == SourceWeight(source)
  {}

  /** A link weighs what its row's source weighs; the row is the case's own and no mere repeat. */
  predicate IsWeighed(l: Link, rows: seq<Evidence>, customer: nat) {
    && l.evidence < |rows|
    && rows[l.evidence].customer == customer
    && rows[l.evidence].duplicateOf == None
    && Weighs(rows[l.evidence].key.source, l.weight)
  }

  ghost predicate AllWeighed(s: State) {
    forall l | 0 <= l < |s.links| :: IsWeighed(s.links[l], s.evidence, s.customer)
  }

  lemma CreateKeepsWeighed(s: State, spec: Spec)
    requires AllWeighed(s)
    ensures AllWeighed(Create(s, spec))
  {
    hide Create, Weighs;
    StoredExactlyWhenGrounded(s, spec);
    var after := Create(s, spec);
    CreationFrame(s, spec);
    forall l | 0 <= l < |after.links| ensures IsWeighed(after.links[l], after.evidence, after.customer) {
      if l < |s.links| {
        assert after.links[l] == after.links[..|s.links|][l];
      } else {
        WeightIs(s.evidence[after.links[l].evidence].key.source, after.links[l].weight);
      }
    }
  }

  lemma CreationFrame(s: State, spec: Spec)
    ensures var after := Create(s, spec); after.evidence == s.evidence && after.customer == s.customer
  {}

  lemma {:induction false} CreateAllKeepsWeighed(s: State, specs: seq<Spec>)
    requires AllWeighed(s)
    ensures AllWeighed(CreateAll(s, specs))
  {
    if specs != [] {
      CreateAllKeepsWeighed(s, specs[..|specs| - 1]);
      CreateKeepsWeighed(CreateAll(s, specs[..|specs| - 1]), specs[|specs| - 1]);
    }
  }

  lemma OpKeepsWeighed(s: State, op: Op)
    requires Inv(s) && AllWeighed(s)
    ensures AllWeighed(Apply(s, op))
  {
    hide Inv, Weighs, Generated, Decide, ExecuteIfReady, Reconciled, Ingested, Decided;
    ApplyExtends(s, op);
    if op.Regenerate? {
      GenerationKeepsWeighed(s, op.specs);
    } else {
      InvIsSafe(s);
      OnlyGenerationTouches(s, op);
    }
  }

  lemma GenerationKeepsWeighed(s: State, specs: seq<Spec>)
    requires AllWeighed(s)
    ensures AllWeighed(Generated(s, specs))
  {
    hide Create, CreateAll, Weighs;
    CreateAllKeepsWeighed(s, Merge(specs));
  }

  lemma InvIsSafe(s: State)
    requires Inv(s)
    ensures Safe(s)
  {}

  /** Over every run, every link weighs what its row's source does. */
  lemma {:induction false} LinksAreWeighed(caseId: nat, customer: nat, prior: seq<Delivery>, ops: seq<Op>)
    ensures AllWeighed(Case(caseId, customer, prior, ops))
  {
    hide Apply, IsWeighed;
    if ops != [] {
      var rest := ops[..|ops| - 1];
      LinksAreWeighed(caseId, customer, prior, rest);
      CaseHolds(caseId, customer, prior, rest);
      OpKeepsWeighed(Case(caseId, customer, prior, rest), ops[|ops| - 1]);
    }
  }

  // ----- Confidence -----

  /** The weights of a hypothesis's links of one relation, added up. */
  function SumOf(links: seq<Link>, h: nat, relation: Relation): nat {
    if links == [] then 0
    else (if links[0].hypothesis == h && links[0].relation == relation then links[0].weight else 0)
         + SumOf(links[1..], h, relation)
  }

  lemma {:induction false} SumIsWeighted(links: seq<Link>, h: nat, relation: Relation)
    ensures SumOf(links, h, relation) == Weighted(links, h, relation)
  {
    if links != [] {
      SumIsWeighted(links[1..], h, relation);
      assert links == [links[0]] + links[1..];
      TotalConcat([links[0]], links[1..], WeightIn(h, relation));
      assert [links[0]][..0] == [];
    }
  }

  /** The ten-thousandth nearest to supports / (supports + weakens + 1), weights in tenths; half-way, the even one. */
  predicate IsNearestRatio(confidence: nat, supports: nat, weakens: nat) {
    var whole := supports + weakens + 10;
    && -whole <= 2 * (confidence * whole - 10_000 * supports) <= whole
    && (2 * (confidence * whole - 10_000 * supports) in {-whole, whole} ==> confidence % 2 == 0)
  }

  lemma RatioIsNearest(supports: nat, weakens: nat)
    ensures IsNearestRatio(Ratio(supports, weakens), supports, weakens)
  {
    RoundingIsNearest(10_000 * supports, supports + weakens + 10);
  }

  lemma RoundingIsNearest(a: nat, b: int)
    requires b > 0
    ensures var r := RoundHalfEven(a, b);
            && -b <= 2 * (r * b - a) <= b
            && (2 * (r * b - a) in {-b, b} ==> r % 2 == 0)
  {
    var q, rest := a / b, a % b;
    assert a == q * b + rest;
    assert (q + 1) * b == q * b + b;
  }

  /**
   Over every run, the confidence of a hypothesis is the nearest ten-thousandth to what its own links'
   weights call for.
   */
  lemma ConfidenceFollowsLinks(caseId: nat, customer: nat, prior: seq<Delivery>, ops: seq<Op>, h: nat)
    requires h < |Case(caseId, customer, prior, ops).hypotheses|
    ensures var s := Case(caseId, customer, prior, ops);
            IsNearestRatio(s.hypotheses[h].confidence, SumOf(s.links, h, Supports), SumOf(s.links, h, Weakens))
  {
    hide Play, IsNearestRatio, Ratio;
    EveryHypothesisIsGrounded(caseId, customer, prior, ops, h);
    var s := Case(caseId, customer, prior, ops);
    SumIsWeighted(s.links, h, Supports);
    SumIsWeighted(s.links, h, Weakens);
    RatioIsNearest(SumOf(s.links, h, Supports), SumOf(s.links, h, Weakens));
  }

  // ----- What a generation stores -----

  ghost predicate IsLinked(links: seq<Link>, h: nat, id: nat, relation: Relation) {
    exists l :: 0 <= l < |links| && links[l].hypothesis == h && links[l].evidence == id && links[l].relation == relation
  }

  /** Some row it cites in support may be cited. */
  ghost predicate IsGrounded(s: State, e: Spec) {
    exists id :: id in e.supports && MayBeCited(s, id)
  }

  /** Hypothesis i of the later state is this entry's, with a link to each row it cites that may be cited. */
  ghost predicate StoredAs(s: State, after: State, e: Spec, i: nat) {
    && |s.hypotheses| <= i < |after.hypotheses|
    && after.hypotheses[i].category == e.category
    && forall id, relation ::
         IsLinked(after.links, i, id, relation) <==> id in CitedBy(e, relation) && MayBeCited(s, id)
  }

  lemma CreationStores(s: State, e: Spec)
    requires LinksOk(s.links, |s.hypotheses|)
    ensures var after := Create(s, e);
            && LinksOk(after.links, |after.hypotheses|)
            && after.evidence == s.evidence && after.customer == s.customer
            && (if IsGrounded(s, e) then
                  |after.hypotheses| == |s.hypotheses| + 1 && StoredAs(s, after, e, |s.hypotheses|)
                else after == s)
  {
    hide Create, LinksOk;
    StoredExactlyWhenGrounded(s, e);
    CreationKeepsLinksOk(s, e);
    if IsGrounded(s, e) {
      NewRowIsOf(s, e);
      NewLinksAre(s, Create(s, e), e);
    }
  }

  lemma CreationKeepsLinksOk(s: State, e: Spec)
    requires LinksOk(s.links, |s.hypotheses|)
    ensures var after := Create(s, e);
            && LinksOk(after.links, |after.hypotheses|)
            && after.evidence == s.evidence && after.customer == s.customer
  {
    hide LinksFor, ConfidenceOf, ValidIds;
    var n := |s.hypotheses|;
    LinksForTotals(s.evidence, n, Supports, ValidIds(s.evidence, s.customer, e.supports), n, Supports);
    LinksForTotals(s.evidence, n, Weakens, ValidIds(s.evidence, s.customer, e.weakens), n, Weakens);
  }

  lemma NewRowIsOf(s: State, e: Spec)
    requires |Create(s, e).hypotheses| == |s.hypotheses| + 1
    ensures Create(s, e).hypotheses[|s.hypotheses|].category == e.category
  {
    hide LinksFor, ConfidenceOf, ValidIds;
  }

  lemma NewLinksAre(s: State, after: State, e: Spec)
    requires LinksOk(s.links, |s.hypotheses|) && |s.links| <= |after.links| && after.links[..|s.links|] == s.links
    requires forall l | |s.links| <= l < |after.links| :: after.links[l].hypothesis == |s.hypotheses|
    requires forall id ::
               && (LinkedAfter(s, after, id, Supports) <==> id in e.supports && MayBeCited(s, id))
               && (LinkedAfter(s, after, id, Weakens) <==> id in e.weakens && MayBeCited(s, id))
    ensures forall id, relation :: IsLinked(after.links, |s.hypotheses|, id, relation) <==>
              id in CitedBy(e, relation) && MayBeCited(s, id)
  {
    hide MayBeCited;
    forall id, relation
      ensures IsLinked(after.links, |s.hypotheses|, id, relation) <==> LinkedAfter(s, after, id, relation)
    {
      assert forall l | 0 <= l < |s.links| :: after.links[l] == s.links[l];
    }
  }

  lemma StaysStored(s: State, t: State, u: State, e: Spec, i: nat)
    requires StoredAs(s, t, e, i) && |t.hypotheses| <= |u.hypotheses|
    requires u.hypotheses[..|t.hypotheses|] == t.hypotheses
    requires |t.links| <= |u.links| && u.links[..|t.links|] == t.links
    requires forall l | |t.links| <= l < |u.links| :: u.links[l].hypothesis >= |t.hypotheses|
    ensures StoredAs(s, u, e, i)
  {
    hide MayBeCited;
    assert u.hypotheses[i] == t.hypotheses[i];
    forall id, relation ensures IsLinked(u.links, i, id, relation) <==> IsLinked(t.links, i, id, relation) {
      assert forall l | 0 <= l < |t.links| :: u.links[l] == t.links[l];
    }
  }

  lemma StoredLater(s: State, t: State, u: State, e: Spec, i: nat)
    requires StoredAs(t, u, e, i) && |s.hypotheses| <= |t.hypotheses|
    requires t.evidence == s.evidence && t.customer == s.customer
    ensures StoredAs(s, u, e, i)
  {
    forall id ensures MayBeCited(t, id) <==> MayBeCited(s, id) {}
  }

  /** Each grounded entry is stored, and whatever is stored is a grounded entry's. */
  ghost predicate StoresEntries(s: State, after: State, entries: seq<Spec>) {
    && (forall k | 0 <= k < |entries| && IsGrounded(s, entries[k]) :: exists i :: StoredAs(s, after, entries[k], i))
    && (forall i: nat | |s.hypotheses| <= i < |after.hypotheses| :: IsOfEntry(s, after, entries, i))
  }

  ghost predicate IsOfEntry(s: State, after: State, entries: seq<Spec>, i: nat) {
    exists k :: 0 <= k < |entries| && IsGrounded(s, entries[k]) && StoredAs(s, after, entries[k], i)
  }

  lemma {:induction false} CreatingStores(s: State, entries: seq<Spec>)
    requires LinksOk(s.links, |s.hypotheses|)
    ensures var after := CreateAll(s, entries);
            && LinksOk(after.links, |after.hypotheses|)
            && after.evidence == s.evidence && after.customer == s.customer
            && StoresEntries(s, after, entries)
            && (|after.hypotheses| == |s.hypotheses| ==> after == s)
  {
    hide LinksOk, Create, StoredAs, IsGrounded, StoresEntries;
    if entries == [] {
      NothingStored(s);
    } else {
      var rest, e := entries[..|entries| - 1], entries[|entries| - 1];
      CreatingStores(s, rest);
      var t := CreateAll(s, rest);
      CreationStores(t, e);
      GroundsStay(s, t, e);
      OneMoreStored(s, t, entries, Create(t, e));
    }
  }

  lemma NothingStored(s: State)
    ensures StoresEntries(s, s, [])
  {}

  lemma GroundsStay(s: State, t: State, e: Spec)
    requires t.evidence == s.evidence && t.customer == s.customer
    ensures IsGrounded(t, e) <==> IsGrounded(s, e)
  {
    forall id ensures MayBeCited(t, id) <==> MayBeCited(s, id) {}
  }

  lemma OneMoreStored(s: State, t: State, entries: seq<Spec>, u: State)
    requires entries != [] && StoresEntries(s, t, entries[..|entries| - 1])
    requires t.evidence == s.evidence && t.customer == s.customer && |s.hypotheses| <= |t.hypotheses|
    requires u == Create(t, entries[|entries| - 1])
    requires if IsGrounded(s, entries[|entries| - 1]) then
               |u.hypotheses| == |t.hypotheses| + 1 && StoredAs(t, u, entries[|entries| - 1], |t.hypotheses|)
             else u == t
    ensures StoresEntries(s, u, entries)
  {
    hide Create, StoredAs, IsGrounded;
    var n := |entries| - 1;
    CreationOnlyAdds(t, entries[n]);
    if IsGrounded(s, entries[n]) {
      StoredLater(s, t, u, entries[n], |t.hypotheses|);
    }
    forall k | 0 <= k < |entries| && IsGrounded(s, entries[k]) ensures exists i :: StoredAs(s, u, entries[k], i) {
      if k < n {
        assert entries[..n][k] == entries[k];
        var i :| StoredAs(s, t, entries[k], i);
        StaysStored(s, t, u, entries[k], i);
      }
    }
    forall i: nat | |s.hypotheses| <= i < |u.hypotheses| ensures IsOfEntry(s, u, entries, i) {
      if i < |t.hypotheses| {
        assert IsOfEntry(s, t, entries[..n], i);
        var k :| 0 <= k < n && IsGrounded(s, entries[..n][k]) && StoredAs(s, t, entries[..n][k], i);
        StaysStored(s, t, u, entries[k], i);
        assert IsGrounded(s, entries[k]);
      } else {
        assert StoredAs(s, u, entries[n], i);
      }
    }
  }

  lemma CreationOnlyAdds(t: State, e: Spec)
    ensures var u := Create(t, e);
            && |t.hypotheses| <= |u.hypotheses| && u.hypotheses[..|t.hypotheses|] == t.hypotheses
            && |t.links| <= |u.links| && u.links[..|t.links|] == t.links
            && forall l | |t.links| <= l < |u.links| :: u.links[l].hypothesis >= |t.hypotheses|
  {
    hide Create;
    StoredExactlyWhenGrounded(t, e);
    CreationPrefix(t, e);
  }

  lemma CreationPrefix(t: State, e: Spec)
    ensures |t.hypotheses| <= |Create(t, e).hypotheses| && Create(t, e).hypotheses[..|t.hypotheses|] == t.hypotheses
  {
    hide LinksFor, ConfidenceOf, ValidIds;
  }

  // ----- In terms of what was proposed -----

  /** Some proposal for the category cites the row, for or against. */
  ghost predicate IsCitedFor(specs: seq<Spec>, c: Category, relation: Relation, id: nat) {
    exists k :: 0 <= k < |specs| && specs[k].category == c && id in CitedBy(specs[k], relation)
  }

  ghost predicate IsGroundedFor(s: State, specs: seq<Spec>, c: Category) {
    exists id :: IsCitedFor(specs, c, Supports, id) && MayBeCited(s, id)
  }

  lemma {:induction false} CitedIs(specs: seq<Spec>, c: Category, relation: Relation)
    ensures forall id :: id in Cited(specs, c, relation) <==> IsCitedFor(specs, c, relation, id)
  {
    if specs != [] {
      var n := |specs| - 1;
      CitedIs(specs[..n], c, relation);
      forall id ensures id in Cited(specs, c, relation) <==> IsCitedFor(specs, c, relation, id) {
        if IsCitedFor(specs[..n], c, relation, id) {
          var k :| 0 <= k < n && specs[..n][k].category == c && id in CitedBy(specs[..n][k], relation);
          assert specs[k] == specs[..n][k];
        }
        if IsCitedFor(specs, c, relation, id) {
          var k :| 0 <= k < |specs| && specs[k].category == c && id in CitedBy(specs[k], relation);
          assert k < n ==> specs[..n][k] == specs[k];
        }
      }
    }
  }

  lemma MergedCites(specs: seq<Spec>, k: nat, relation: Relation)
    requires k < |Merge(specs)|
    ensures forall id :: id in CitedBy(Merge(specs)[k], relation) <==>
              IsCitedFor(specs, Merge(specs)[k].category, relation, id)
  {
    hide Merge, Cited;
    MergeUnique(specs);
    EntryOwnsCitations(Merge(specs), k, relation);
    MergeUnionsCitations(specs, Merge(specs)[k].category, relation);
    CitedIs(specs, Merge(specs)[k].category, relation);
  }

  lemma MergedHas(specs: seq<Spec>, c: Category, relation: Relation, id: nat)
    requires IsCitedFor(specs, c, relation, id)
    ensures exists k :: 0 <= k < |Merge(specs)| && Merge(specs)[k].category == c
  {
    hide Merge, Dedup;
    MergeKeepsFirstAppearance(specs);
    CategoriesAt(specs);
    CategoriesAt(Merge(specs));
    var j :| 0 <= j < |specs| && specs[j].category == c && id in CitedBy(specs[j], relation);
    assert Categories(specs)[j] in Categories(Merge(specs));
  }

  /** A new hypothesis: its links are to what was proposed for its category, as far as it may be cited. */
  ghost predicate IsProposed(s: State, specs: seq<Spec>, links: seq<Link>, c: Category, i: nat) {
    && IsGroundedFor(s, specs, c)
    && forall id, relation ::
         IsLinked(links, i, id, relation) <==> IsCitedFor(specs, c, relation, id) && MayBeCited(s, id)
  }

  /**
   What a generation stores, in any reachable case and from any proposals: one hypothesis for each category
   for which some proposal cites current evidence in support, linked to exactly the current evidence the
   proposals for that category cite, for and against. If there is no such category nothing changes at all.
   */
  lemma GenerationStoresWhatIsGrounded(
    caseId: nat, customer: nat, prior: seq<Delivery>, ops: seq<Op>, specs: seq<Spec>)
    ensures var s := Case(caseId, customer, prior, ops);
            var after, n := Generated(s, specs), |s.hypotheses|;
            && (forall i | n <= i < |after.hypotheses| ::
                  IsProposed(s, specs, after.links, after.hypotheses[i].category, i))
            && (forall i, j | n <= i < j < |after.hypotheses| ::
                  after.hypotheses[i].category != after.hypotheses[j].category)
            && (forall c | IsGroundedFor(s, specs, c) ::
                  exists i :: n <= i < |after.hypotheses| && after.hypotheses[i].category == c)
            && (|after.hypotheses| == n ==> after == s)
  {
    hide Play, IsProposed, IsGroundedFor, Scored, ActiveFrom, Generated;
    CaseHolds(caseId, customer, prior, ops);
    var s := Case(caseId, customer, prior, ops);
    LedHasLinks(s);
    GeneratedKeepsLed(s, specs);
    GenerationStores(s, specs);
    var after := Generated(s, specs);
    if |after.hypotheses| > |s.hypotheses| {
      assert ActiveFrom(after.hypotheses, |s.hypotheses|);
      BatchDiffers(after.hypotheses, |s.hypotheses|);
    }
  }

  lemma LedHasLinks(s: State)
    requires Inv(s)
    ensures Led(s) && LinksOk(s.links, |s.hypotheses|)
  {}

  lemma BatchDiffers(hypotheses: seq<Hypothesis>, from: nat)
    requires ActiveFrom(hypotheses, from)
    ensures forall i, j | from <= i < j < |hypotheses| :: hypotheses[i].category != hypotheses[j].category
  {}

  lemma GenerationStores(s: State, specs: seq<Spec>)
    requires LinksOk(s.links, |s.hypotheses|)
    ensures var after, n := Generated(s, specs), |s.hypotheses|;
            && (forall i | n <= i < |after.hypotheses| ::
                  IsProposed(s, specs, after.links, after.hypotheses[i].category, i))
            && (forall c | IsGroundedFor(s, specs, c) ::
                  exists i :: n <= i < |after.hypotheses| && after.hypotheses[i].category == c)
            && (|after.hypotheses| == n ==> after == s)
  {
    hide LinksOk, Merge, CreateAll, StoresEntries, IsProposed, IsGroundedFor;
    CreatingStores(s, Merge(specs));
    var s1 := CreateAll(s, Merge(specs));
    if HasEvidence(s) && specs != [] {
      EntriesAreProposed(s, s1, specs);
      var after := Generated(s, specs);
      forall c | IsGroundedFor(s, specs, c)
        ensures exists i :: |s.hypotheses| <= i < |after.hypotheses| && after.hypotheses[i].category == c
      {
        var i :| |s.hypotheses| <= i < |s1.hypotheses| && s1.hypotheses[i].category == c;
        assert after.hypotheses[i].category == c;
      }
    } else {
      NothingGrounded(s, specs);
    }
  }

  lemma NothingGrounded(s: State, specs: seq<Spec>)
    requires !HasEvidence(s) || specs == []
    ensures forall c :: !IsGroundedFor(s, specs, c)
  {
    forall id: nat | MayBeCited(s, id) ensures HasEvidence(s) {
      assert IsCurrent(s.customer)(s.evidence[id]);
    }
  }

  lemma EntriesAreProposed(s: State, t: State, specs: seq<Spec>)
    requires StoresEntries(s, t, Merge(specs))
    ensures forall i | |s.hypotheses| <= i < |t.hypotheses| ::
              IsProposed(s, specs, t.links, t.hypotheses[i].category, i)
    ensures forall c | IsGroundedFor(s, specs, c) ::
              exists i :: |s.hypotheses| <= i < |t.hypotheses| && t.hypotheses[i].category == c
  {
    hide Merge, MayBeCited, IsCitedFor, IsLinked;
    var entries := Merge(specs);
    forall i | |s.hypotheses| <= i < |t.hypotheses| ensures IsProposed(s, specs, t.links, t.hypotheses[i].category, i) {
      assert IsOfEntry(s, t, entries, i);
      var k :| 0 <= k < |entries| && IsGrounded(s, entries[k]) && StoredAs(s, t, entries[k], i);
      EntryIsProposed(s, t, specs, k, i);
    }
    forall c | IsGroundedFor(s, specs, c)
      ensures exists i :: |s.hypotheses| <= i < |t.hypotheses| && t.hypotheses[i].category == c
    {
      var id :| IsCitedFor(specs, c, Supports, id) && MayBeCited(s, id);
      MergedHas(specs, c, Supports, id);
      var k :| 0 <= k < |entries| && entries[k].category == c;
      MergedCites(specs, k, Supports);
      assert id in entries[k].supports;
      var i :| StoredAs(s, t, entries[k], i);
    }
  }

  lemma EntryIsProposed(s: State, t: State, specs: seq<Spec>, k: nat, i: nat)
    requires k < |Merge(specs)| && IsGrounded(s, Merge(specs)[k]) && StoredAs(s, t, Merge(specs)[k], i)
    ensures IsProposed(s, specs, t.links, t.hypotheses[i].category, i)
  {
    hide Merge, MayBeCited, IsCitedFor, IsLinked;
    var e := Merge(specs)[k];
    MergedCites(specs, k, Supports);
    MergedCites(specs, k, Weakens);
    var id :| id in e.supports && MayBeCited(s, id);
    assert IsCitedFor(specs, e.category, Supports, id);
    forall id, relation
      ensures IsLinked(t.links, i, id, relation) <==> IsCitedFor(specs, e.category, relation, id) && MayBeCited(s, id)
    {
      assert id in CitedBy(e, relation) <==> IsCitedFor(specs, e.category, relation, id);
    }
  }
}
