/** Every hypothesis is grounded and scored from its links; one batch is active, its best is primary. */
module HypothesisInvariants {
  import opened Domain
  import opened Sequences
  import opened CaseState
  import opened Confidence
  import opened HypothesisMerge
  import opened HypothesisEngine

  // ----- What creating a hypothesis stores -----

  /** Links point at known hypotheses and weigh at most 1.0. */
  ghost predicate LinksOk(links: seq<Link>, hypotheses: nat) {
    forall l | 0 <= l < |links| :: links[l].hypothesis < hypotheses && links[l].weight <= UNIT
  }

  lemma {:induction false} LinksForTotals(
      rows: seq<Evidence>, h: nat, relation: Relation, ids: seq<nat>, other: nat, r: Relation)
    ensures LinksOk(LinksFor(rows, h, relation, ids), h + 1)
    ensures Weighted(LinksFor(rows, h, relation, ids), other, r) ==
            if other == h && r == relation then Total(ids, WeightOf(rows)) else 0
  {
    if ids != [] {
      LinksForTotals(rows, h, relation, ids[..|ids| - 1], other, r);
      var links := LinksFor(rows, h, relation, ids);
      assert links[..|links| - 1] == LinksFor(rows, h, relation, ids[..|ids| - 1]);
    }
  }

  lemma {:induction false} NoLinksNoWeight(links: seq<Link>, h: nat, r: Relation)
    requires LinksOk(links, h)
    ensures Weighted(links, h, r) == 0
  {
    if links != [] {
      NoLinksNoWeight(links[..|links| - 1], h, r);
    }
  }

  /** A spec's confidence in terms of what it cites: no link table involved. */
  function Score(rows: seq<Evidence>, customer: nat, spec: Spec): nat {
    Ratio(Total(ValidIds(rows, customer, spec.supports), WeightOf(rows)),
          Total(ValidIds(rows, customer, spec.weakens), WeightOf(rows)))
  }

  function NewLinks(s: State, spec: Spec): seq<Link> {
    LinksFor(s.evidence, |s.hypotheses|, Supports, ValidIds(s.evidence, s.customer, spec.supports))
    + LinksFor(s.evidence, |s.hypotheses|, Weakens, ValidIds(s.evidence, s.customer, spec.weakens))
  }

  lemma NewLinkTotals(s: State, spec: Spec, h: nat)
    requires LinksOk(s.links, |s.hypotheses|)
    ensures LinksOk(s.links + NewLinks(s, spec), |s.hypotheses| + 1)
    ensures h == |s.hypotheses| ==> ConfidenceOf(s.links + NewLinks(s, spec), h) == Score(s.evidence, s.customer, spec)
    ensures h < |s.hypotheses| ==> ConfidenceOf(s.links + NewLinks(s, spec), h) == ConfidenceOf(s.links, h)
  {
    var n := |s.hypotheses|;
    var supports := ValidIds(s.evidence, s.customer, spec.supports);
    var weakens := ValidIds(s.evidence, s.customer, spec.weakens);
    var left, right := LinksFor(s.evidence, n, Supports, supports), LinksFor(s.evidence, n, Weakens, weakens);
    forall r: Relation
      ensures Weighted(s.links + NewLinks(s, spec), h, r) ==
              Weighted(s.links, h, r) + Weighted(left, h, r) + Weighted(right, h, r)
    {
      TotalConcat(s.links, left + right, WeightIn(h, r));
      TotalConcat(left, right, WeightIn(h, r));
    }
    LinksForTotals(s.evidence, n, Supports, supports, h, Supports);
    LinksForTotals(s.evidence, n, Supports, supports, h, Weakens);
    LinksForTotals(s.evidence, n, Weakens, weakens, h, Supports);
    LinksForTotals(s.evidence, n, Weakens, weakens, h, Weakens);
    if h == n {
      NoLinksNoWeight(s.links, n, Supports);
      NoLinksNoWeight(s.links, n, Weakens);
    }
  }

  /** A supporting link to a row that is the case's own and no mere repeat. */
  predicate Backs(rows: seq<Evidence>, customer: nat, link: Link, h: nat) {
    && link.hypothesis == h
    && link.relation == Supports
    && link.evidence < |rows|
    && rows[link.evidence].customer == customer
    && rows[link.evidence].duplicateOf.None?
  }

  ghost predicate Supported(rows: seq<Evidence>, customer: nat, links: seq<Link>, h: nat) {
    exists l :: 0 <= l < |links| && Backs(rows, customer, links[l], h)
  }

  /** Stored hypotheses are linked, scored and supported. */
  ghost predicate Scored(s: State) {
    && LinksOk(s.links, |s.hypotheses|)
    && (forall h: nat | h < |s.hypotheses| ::
          && s.hypotheses[h].confidence == ConfidenceOf(s.links, h)
          && Supported(s.evidence, s.customer, s.links, h))
  }

  /** Creating keeps that, and the new row is supported by evidence that is current right now. */
  lemma CreateKeepsScored(s: State, spec: Spec)
    requires Scored(s)
    ensures Scored(Create(s, spec))
    ensures Create(s, spec).hypotheses == s.hypotheses +
              if ValidIds(s.evidence, s.customer, spec.supports) == [] then []
              else [Hypothesis(spec.category, Score(s.evidence, s.customer, spec), Active)]
  {
    var supports := ValidIds(s.evidence, s.customer, spec.supports);
    if supports != [] {
      var n, after := |s.hypotheses|, Create(s, spec);
      assert after.links == s.links + NewLinks(s, spec);
      NewLinkTotals(s, spec, n);
      forall h: nat | h <= n
        ensures after.hypotheses[h].confidence == ConfidenceOf(after.links, h)
        ensures Supported(after.evidence, after.customer, after.links, h)
      {
        NewLinkTotals(s, spec, h);
        if h < n {
          var l :| 0 <= l < |s.links| && Backs(s.evidence, s.customer, s.links[l], h);
          assert after.links[l] == s.links[l];
        } else {
          FilterMembers(spec.supports, Citable(s.evidence, s.customer));
          var last := supports[|supports| - 1];
          assert last in supports;
          var k := |s.links| + |LinksFor(s.evidence, n, Supports, supports)| - 1;
          assert after.links[k] == Link(n, last, Supports, WeightOf(s.evidence)(last));
        }
      }
    }
  }

  /** The rows a list of merged specs becomes. */
  function NewHypotheses(rows: seq<Evidence>, customer: nat, specs: seq<Spec>): seq<Hypothesis> {
    if specs == [] then []
    else
      var spec := specs[|specs| - 1];
      NewHypotheses(rows, customer, specs[..|specs| - 1]) +
      if ValidIds(rows, customer, spec.supports) == [] then []
      else [Hypothesis(spec.category, Score(rows, customer, spec), Active)]
  }

  lemma {:induction false} CreateAllKeepsScored(s: State, specs: seq<Spec>)
    requires Scored(s)
    ensures Scored(CreateAll(s, specs))
    ensures CreateAll(s, specs).hypotheses == s.hypotheses + NewHypotheses(s.evidence, s.customer, specs)
  {
    if specs != [] {
      CreateAllKeepsScored(s, specs[..|specs| - 1]);
      CreateKeepsScored(CreateAll(s, specs[..|specs| - 1]), specs[|specs| - 1]);
    }
  }

  ghost predicate DistinctBatch(hypotheses: seq<Hypothesis>, from: nat) {
    forall i, j | from <= i < j < |hypotheses| :: hypotheses[i].category != hypotheses[j].category
  }

  lemma {:induction false} NewAreActive(rows: seq<Evidence>, customer: nat, specs: seq<Spec>)
    requires UniqueCategories(specs)
    ensures var added := NewHypotheses(rows, customer, specs);
            && (forall i | 0 <= i < |added| :: IsActive(added[i]) && added[i].category in Categories(specs))
            && DistinctBatch(added, 0)
  {
    if specs != [] {
      var rest := specs[..|specs| - 1];
      assert forall i, j | 0 <= i < j < |rest| :: rest[i] == specs[i] && rest[j] == specs[j];
      NewAreActive(rows, customer, rest);
      CategoriesAt(rest);
      assert forall i | 0 <= i < |rest| :: rest[i].category != specs[|specs| - 1].category;
    }
  }

  // ----- One active batch with its best as primary -----

  /** The ACTIVE hypotheses are exactly the rows from `from` on, with distinct categories. */
  ghost predicate ActiveFrom(hypotheses: seq<Hypothesis>, from: nat) {
    && from <= |hypotheses|
    && (forall i: nat | i < |hypotheses| :: IsActive(hypotheses[i]) <==> i >= from)
    && (hypotheses != [] ==> from < |hypotheses|)
    && DistinctBatch(hypotheses, from)
  }

  ghost predicate PrimaryOk(hypotheses: seq<Hypothesis>, primary: Option<nat>) {
    && (primary.None? <==> hypotheses == [])
    && (primary.Some? ==>
          && primary.value < |hypotheses|
          && IsActive(hypotheses[primary.value])
          && forall i | 0 <= i < |hypotheses| && IsActive(hypotheses[i]) ::
               hypotheses[i].confidence <= hypotheses[primary.value].confidence)
  }

  ghost predicate Led(s: State) {
    && Scored(s)
    && (exists from :: ActiveFrom(s.hypotheses, from))
    && PrimaryOk(s.hypotheses, s.primary)
  }

  lemma {:induction false} TopActiveIsMax(hypotheses: seq<Hypothesis>)
    ensures forall i | 0 <= i < |hypotheses| && IsActive(hypotheses[i]) ::
            hypotheses[i].confidence <= TopActive(hypotheses)
    ensures (exists i ::
            0 <= i < |hypotheses| && IsActive(hypotheses[i]) && hypotheses[i].confidence == TopActive(hypotheses))
            || TopActive(hypotheses) == 0
  {
    if hypotheses != [] {
      var n := |hypotheses| - 1;
      TopActiveIsMax(hypotheses[..n]);
      assert forall i | 0 <= i < n :: hypotheses[..n][i] == hypotheses[i];
    }
  }

  /** The maximum the engine compares with is the old primary's confidence. */
  lemma PreviousTopIsPrimary(s: State)
    requires Led(s)
    ensures s.primary.Some? ==> TopActive(s.hypotheses) == s.hypotheses[s.primary.value].confidence
    ensures s.primary.None? ==> TopActive(s.hypotheses) == 0
    ensures s.primary.Some? <==> First(s.hypotheses, IsActive).Some?
  {
    TopActiveIsMax(s.hypotheses);
  }

  /** A generation that created something replaces the active batch; otherwise nothing changes. */
  lemma GeneratedKeepsLed(s: State, specs: seq<Spec>)
    requires Led(s)
    ensures var after := Generated(s, specs);
            && Led(after)
            && ((after.hypotheses == s.hypotheses && after.primary == s.primary)
              || ActiveFrom(after.hypotheses, |s.hypotheses|))
  {
    MergeUnique(specs);
    CreatedTakesOver(s, Merge(specs));
  }

  lemma CreatedTakesOver(s: State, merged: seq<Spec>)
    requires Led(s) && UniqueCategories(merged)
    ensures var s1, n := CreateAll(s, merged), |s.hypotheses|;
            if |s1.hypotheses| == n then s1.hypotheses == s.hypotheses && Led(s1)
            else Led(TakeOver(s1, n)) && ActiveFrom(TakeOver(s1, n).hypotheses, n)
  {
    hide Scored, Score, Create, TakeOver, CreateAll, NewHypotheses;
    var s1, n := CreateAll(s, merged), |s.hypotheses|;
    CreateAllKeepsScored(s, merged);
    NewAreActive(s.evidence, s.customer, merged);
    var added := NewHypotheses(s.evidence, s.customer, merged);
    if |s1.hypotheses| == n {
      assert s1.hypotheses == s.hypotheses;
    } else {
      assert s1.hypotheses[n..] == added;
      assert forall i | n <= i < |s1.hypotheses| :: s1.hypotheses[i] == added[i - n];
      TakeOverLeads(s1, n);
    }
  }

  lemma TakeOverLeads(s: State, from: nat)
    requires Scored(s) && from < |s.hypotheses| && DistinctBatch(s.hypotheses[from..], 0)
    requires forall i | from <= i < |s.hypotheses| :: IsActive(s.hypotheses[i])
    ensures Led(TakeOver(s, from)) && ActiveFrom(TakeOver(s, from).hypotheses, from)
  {
    var after := TakeOver(s, from);
    RetireActivates(s.hypotheses, from);
    StillScored(s, after);
    assert PrimaryOk(after.hypotheses, after.primary);
  }

  lemma RetireActivates(hypotheses: seq<Hypothesis>, from: nat)
    requires from < |hypotheses| && DistinctBatch(hypotheses[from..], 0)
    requires forall i | from <= i < |hypotheses| :: IsActive(hypotheses[i])
    ensures ActiveFrom(Retire(hypotheses, from), from)
    ensures PrimaryOk(Retire(hypotheses, from), Some(Best(hypotheses, from)))
  {
    assert forall i, j | from <= i < j < |hypotheses| ::
        hypotheses[from..][i - from] == hypotheses[i] && hypotheses[from..][j - from] == hypotheses[j];
  }

  /** Status changes do not touch scores or support. */
  lemma StillScored(s: State, after: State)
    requires Scored(s)
    requires after.links == s.links && after.evidence == s.evidence && after.customer == s.customer
    requires |after.hypotheses| == |s.hypotheses|
    requires forall h | 0 <= h < |s.hypotheses| :: after.hypotheses[h].confidence == s.hypotheses[h].confidence
    ensures Scored(after)
  {}

  /** Later evidence does not unsettle stored hypotheses. */
  lemma GrowthKeepsLed(s: State, after: State)
    requires Led(s)
    requires after.hypotheses == s.hypotheses && after.links == s.links && after.primary == s.primary
    requires after.customer == s.customer && |s.evidence| <= |after.evidence|
    requires forall i | 0 <= i < |s.evidence| ::
        after.evidence[i].customer == s.evidence[i].customer
          && after.evidence[i].duplicateOf == s.evidence[i].duplicateOf
    ensures Led(after)
  {
    forall h: nat | h < |s.hypotheses| ensures Supported(after.evidence, after.customer, after.links, h) {
      assert Supported(s.evidence, s.customer, s.links, h);
      var l :| 0 <= l < |s.links| && Backs(s.evidence, s.customer, s.links[l], h);
      assert Backs(after.evidence, after.customer, after.links[l], h);
    }
  }

  // ----- Order of flags and evidence does not matter to the template path -----

  /** What the flags of one category cite. */
  function FlagsCite(flags: seq<Flag>, category: Category): set<nat> {
    set f, id | f in flags && CategoryFor(f) == Some(category) && id in f.related :: id
  }

  predicate SomeFlag(flags: seq<Flag>, category: Category) {
    exists f :: f in flags && CategoryFor(f) == Some(category)
  }

  lemma {:induction false} TemplateCites(flags: seq<Flag>, category: Category)
    ensures category in Categories(TemplateSpecs(flags)) <==> SomeFlag(flags, category)
    ensures Cited(TemplateSpecs(flags), category, Supports) == FlagsCite(flags, category)
    ensures Cited(TemplateSpecs(flags), category, Weakens) == {}
  {
    if flags != [] {
      var rest, last := flags[..|flags| - 1], flags[|flags| - 1];
      TemplateCites(rest, category);
      assert flags == rest + [last];
      LastFlagCites(rest, last, category);
      LastSpecCites(TemplateSpecs(rest), last, category);
    }
  }

  lemma LastSpecCites(specs: seq<Spec>, last: Flag, category: Category)
    ensures var more := specs + SpecFor(last);
            && (category in Categories(more) <==> category in Categories(specs) || CategoryFor(last) == Some(category))
            && Cited(more, category, Supports) ==
               Cited(specs, category, Supports)
                 + (if CategoryFor(last) == Some(category) then Elements(last.related) else {})
            && Cited(more, category, Weakens) == Cited(specs, category, Weakens)
  {
    var c := CategoryFor(last);
    if c.Some? {
      var spec := Spec(c.value, last.related, [], false);
      SnocSpec(specs, spec, category, Supports);
      SnocSpec(specs, spec, category, Weakens);
    } else {
      assert specs + [] == specs;
    }
  }

  lemma LastFlagCites(rest: seq<Flag>, last: Flag, category: Category)
    ensures SomeFlag(rest + [last], category) <==> SomeFlag(rest, category) || CategoryFor(last) == Some(category)
    ensures FlagsCite(rest + [last], category) ==
            FlagsCite(rest, category) + if CategoryFor(last) == Some(category) then Elements(last.related) else {}
  {
    assert forall f :: f in rest + [last] <==> f in rest || f == last;
  }

  ghost predicate CleanFlags(flags: seq<Flag>) {
    forall f | f in flags :: NoDuplicates(f.related)
  }

  lemma {:induction false} TemplateClean(flags: seq<Flag>)
    requires CleanFlags(flags)
    ensures forall s | s in TemplateSpecs(flags) :: Clean(s)
  {
    if flags != [] {
      assert forall f | f in flags[..|flags| - 1] :: f in flags;
      TemplateClean(flags[..|flags| - 1]);
    }
  }

  /** A category's merged entry cites what its flags cite: once each if there are two, as listed if there is one. */
  lemma EntryCites(flags: seq<Flag>, k: nat, e: Spec)
    requires k < |Merge(TemplateSpecs(flags))| && e == Merge(TemplateSpecs(flags))[k]
    ensures Count(TemplateSpecs(flags), OfCategory(e.category)) >= 2 ==> Clean(e)
    ensures Count(TemplateSpecs(flags), OfCategory(e.category)) <= 1 ==> e in TemplateSpecs(flags)
    ensures e.category in Categories(TemplateSpecs(flags))
    ensures Elements(e.supports) == Cited(TemplateSpecs(flags), e.category, Supports)
    ensures e.weakens == []
  {
    hide Merge, TemplateSpecs, Cited, Count, Dedup, NoDuplicates;
    var specs := TemplateSpecs(flags);
    MergedEntryIsClean(specs, k);
    LoneSpecStays(specs, k);
    MergeKeepsFirstAppearance(specs);
    CategoriesAt(Merge(specs));
    assert Categories(Merge(specs))[k] in Categories(Merge(specs));
    MergeUnique(specs);
    MergeUnionsCitations(specs, e.category, Supports);
    MergeUnionsCitations(specs, e.category, Weakens);
    EntryOwnsCitations(Merge(specs), k, Supports);
    EntryOwnsCitations(Merge(specs), k, Weakens);
    TemplateCites(flags, e.category);
    EmptyElements(e.weakens);
  }

  lemma {:induction false} EntryOwnsCitations(entries: seq<Spec>, k: nat, relation: Relation)
    requires k < |entries| && UniqueCategories(entries)
    ensures Cited(entries, entries[k].category, relation) == Elements(CitedBy(entries[k], relation))
  {
    var n := |entries| - 1;
    var rest := entries[..n];
    assert forall i, j | 0 <= i < j < |rest| :: rest[i] == entries[i] && rest[j] == entries[j];
    if k < n {
      EntryOwnsCitations(rest, k, relation);
    } else {
      NoneCites(rest, entries[k].category, relation);
    }
  }

  lemma {:induction false} NoneCites(entries: seq<Spec>, category: Category, relation: Relation)
    requires forall i | 0 <= i < |entries| :: entries[i].category != category
    ensures Cited(entries, category, relation) == {}
  {
    if entries != [] {
      NoneCites(entries[..|entries| - 1], category, relation);
    }
  }

  /** Specs citing the same evidence once each score the same. */
  lemma SameCitationsSameScore(rows: seq<Evidence>, customer: nat, x: Spec, y: Spec)
    requires Clean(x) && Clean(y) && Elements(x.supports) == Elements(y.supports)
    requires x.weakens == [] && y.weakens == []
    ensures Score(rows, customer, x) == Score(rows, customer, y)
    ensures ValidIds(rows, customer, x.supports) == [] <==> ValidIds(rows, customer, y.supports) == []
  {
    var p := Citable(rows, customer);
    var u, v := ValidIds(rows, customer, x.supports), ValidIds(rows, customer, y.supports);
    FilterMembers(x.supports, p);
    FilterMembers(y.supports, p);
    FilterDistinct(x.supports, p);
    FilterDistinct(y.supports, p);
    forall id ensures id in x.supports <==> id in y.supports {
      assert id in Elements(x.supports) <==> id in Elements(y.supports);
    }
    assert Elements(u) == Elements(v);
    SameElementsSameMultiset(u, v);
    TotalPermutation(u, v, WeightOf(rows));
    assert |multiset(u)| == |u| && |multiset(v)| == |v|;
  }

  /** The row a merged spec is stored as, if it is. */
  predicate StoredAs(rows: seq<Evidence>, customer: nat, spec: Spec, h: Hypothesis) {
    && ValidIds(rows, customer, spec.supports) != []
    && h == Hypothesis(spec.category, Score(rows, customer, spec), Active)
  }

  lemma {:induction false} StoredFor(rows: seq<Evidence>, customer: nat, specs: seq<Spec>, h: Hypothesis)
    ensures h in NewHypotheses(rows, customer, specs) <==>
            exists k :: 0 <= k < |specs| && StoredAs(rows, customer, specs[k], h)
  {
    hide Score, ValidIds;
    if specs != [] {
      var n := |specs| - 1;
      StoredFor(rows, customer, specs[..n], h);
      assert forall k | 0 <= k < n :: specs[..n][k] == specs[k];
      if k :| 0 <= k < n && StoredAs(rows, customer, specs[k], h) {
        assert specs[..n][k] == specs[k];
      }
    }
  }

  // ----- How many flags feed a category -----

  function Feeds(category: Category): Flag -> nat {
    (f: Flag) => if CategoryFor(f) == Some(category) then 1 else 0
  }

  lemma {:induction false} SpecsPerFlag(flags: seq<Flag>, category: Category)
    ensures Count(TemplateSpecs(flags), OfCategory(category)) == Total(flags, Feeds(category))
  {
    if flags != [] {
      var rest, last := flags[..|flags| - 1], flags[|flags| - 1];
      SpecsPerFlag(rest, category);
      if CategoryFor(last).Some? {
        CountAppend(TemplateSpecs(rest), Spec(CategoryFor(last).value, last.related, [], false), OfCategory(category));
      } else {
        assert TemplateSpecs(flags) == TemplateSpecs(rest);
      }
    }
  }

  lemma {:induction false} SpecsOfSameFlags(flags: seq<Flag>, spec: Spec)
    ensures spec in TemplateSpecs(flags) <==> exists f :: f in flags && SpecFor(f) == [spec]
  {
    if flags != [] {
      var rest, last := flags[..|flags| - 1], flags[|flags| - 1];
      SpecsOfSameFlags(rest, spec);
      assert flags == rest + [last];
      assert spec in SpecFor(last) <==> SpecFor(last) == [spec];
    }
  }

  lemma {:induction false} OnlyOne(specs: seq<Spec>, category: Category, x: Spec, y: Spec)
    requires Count(specs, OfCategory(category)) <= 1
    requires x in specs && y in specs && x.category == category && y.category == category
    ensures x == y
  {
    var rest, last := specs[..|specs| - 1], specs[|specs| - 1];
    assert specs == rest + [last];
    if last.category == category {
      CountZero(rest, OfCategory(category));
    } else {
      OnlyOne(rest, category, x, y);
    }
  }

  /** Whatever order flags and evidence are listed in, the same hypotheses with the same confidence result. */
  lemma TemplateOrderIrrelevant(
      rows: seq<Evidence>, customer: nat, flags: seq<Flag>, permuted: seq<Flag>, h: Hypothesis)
    requires multiset(flags) == multiset(permuted)
    ensures h in NewHypotheses(rows, customer, Merge(TemplateSpecs(flags))) <==>
            h in NewHypotheses(rows, customer, Merge(TemplateSpecs(permuted)))
  {
    if h in NewHypotheses(rows, customer, Merge(TemplateSpecs(flags))) {
      TemplateCarriesOver(rows, customer, flags, permuted, h);
    }
    if h in NewHypotheses(rows, customer, Merge(TemplateSpecs(permuted))) {
      TemplateCarriesOver(rows, customer, permuted, flags, h);
    }
  }

  lemma SameFlags(flags: seq<Flag>, permuted: seq<Flag>)
    requires multiset(flags) == multiset(permuted)
    ensures forall f :: f in flags <==> f in permuted
  {
    forall f ensures f in flags <==> f in permuted {
      assert f in flags <==> f in multiset(flags);
      assert f in permuted <==> f in multiset(permuted);
    }
  }

  lemma TemplateCarriesOver(rows: seq<Evidence>, customer: nat, flags: seq<Flag>, permuted: seq<Flag>, h: Hypothesis)
    requires multiset(flags) == multiset(permuted)
    requires h in NewHypotheses(rows, customer, Merge(TemplateSpecs(flags)))
    ensures h in NewHypotheses(rows, customer, Merge(TemplateSpecs(permuted)))
  {
    hide NewHypotheses, Merge, TemplateSpecs, Score, ValidIds, Cited;
    var xs, ys := Merge(TemplateSpecs(flags)), Merge(TemplateSpecs(permuted));
    StoredFor(rows, customer, xs, h);
    var k :| 0 <= k < |xs| && StoredAs(rows, customer, xs[k], h);
    var c := xs[k].category;
    SameFlags(flags, permuted);
    EntryCites(flags, k, xs[k]);
    TemplateCites(flags, c);
    TemplateCites(permuted, c);
    MergeKeepsFirstAppearance(TemplateSpecs(permuted));
    CategoriesAt(ys);
    assert c in Categories(ys);
    var m :| 0 <= m < |ys| && Categories(ys)[m] == c;
    SameEntry(rows, customer, flags, permuted, k, m);
    StoredFor(rows, customer, ys, h);
  }

  /** The entries of one category score the same, from either listing. */
  lemma SameEntry(rows: seq<Evidence>, customer: nat, flags: seq<Flag>, permuted: seq<Flag>, k: nat, m: nat)
    requires multiset(flags) == multiset(permuted)
    requires k < |Merge(TemplateSpecs(flags))| && m < |Merge(TemplateSpecs(permuted))|
    requires Merge(TemplateSpecs(flags))[k].category == Merge(TemplateSpecs(permuted))[m].category
    ensures var x, y := Merge(TemplateSpecs(flags))[k], Merge(TemplateSpecs(permuted))[m];
            && Score(rows, customer, x) == Score(rows, customer, y)
            && (ValidIds(rows, customer, x.supports) == [] <==> ValidIds(rows, customer, y.supports) == [])
  {
    hide Merge, TemplateSpecs, Score, ValidIds, Cited, Count, Feeds, FlagsCite;
    var x, y := Merge(TemplateSpecs(flags))[k], Merge(TemplateSpecs(permuted))[m];
    var c := x.category;
    SameFlags(flags, permuted);
    EntryCites(flags, k, x);
    EntryCites(permuted, m, y);
    TemplateCites(flags, c);
    TemplateCites(permuted, c);
    SameFlagsCite(flags, permuted, c);
    SpecsPerFlag(flags, c);
    SpecsPerFlag(permuted, c);
    TotalPermutation(flags, permuted, Feeds(c));
    if Count(TemplateSpecs(flags), OfCategory(c)) >= 2 {
      SameCitationsSameScore(rows, customer, x, y);
    } else {
      SpecsOfSameFlags(flags, x);
      SpecsOfSameFlags(permuted, x);
      OnlyOne(TemplateSpecs(permuted), c, x, y);
    }
  }

  lemma SameFlagsCite(flags: seq<Flag>, permuted: seq<Flag>, category: Category)
    requires forall f :: f in flags <==> f in permuted
    ensures FlagsCite(flags, category) == FlagsCite(permuted, category)
  {}

  lemma TopAtMost(a: seq<Hypothesis>, b: seq<Hypothesis>)
    requires forall h :: h in a ==> h in b
    ensures TopActive(a) <= TopActive(b)
  {
    TopActiveIsMax(a);
    TopActiveIsMax(b);
    forall h | h in a && IsActive(h) ensures h.confidence <= TopActive(b) {
      var j :| 0 <= j < |b| && b[j] == h;
    }
    assert forall i | 0 <= i < |a| :: a[i] in a;
  }

  /** The best row is determined by being the first of the most confident. */
  lemma BestIsFirstTop(hypotheses: seq<Hypothesis>, from: nat, k: nat)
    requires from <= k < |hypotheses|
    requires forall i | from <= i < |hypotheses| :: hypotheses[i].confidence <= hypotheses[k].confidence
    requires forall i | from <= i < k :: hypotheses[i].confidence < hypotheses[k].confidence
    ensures Best(hypotheses, from) == k
  {}

  lemma BestOfAdded(before: seq<Hypothesis>, added: seq<Hypothesis>)
    requires added != []
    ensures Best(before + added, |before|) == |before| + Best(added, 0)
  {
    var all, k := before + added, |before| + Best(added, 0);
    assert forall i | |before| <= i < |all| :: all[i] == added[i - |before|];
    BestIsFirstTop(all, |before|, k);
  }

  lemma BestIsTop(before: seq<Hypothesis>, added: seq<Hypothesis>)
    requires added != [] && forall i | 0 <= i < |added| :: IsActive(added[i])
    ensures (before + added)[Best(before + added, |before|)].confidence == TopActive(added)
  {
    hide TopActive;
    var all, n := before + added, |before|;
    TopActiveIsMax(added);
    assert all[n..] == added;
    assert forall i | 0 <= i < |added| :: all[n + i] == added[i];
    assert added[Best(all, n) - n] == all[Best(all, n)];
  }

  lemma CreatedTop(s: State, merged: seq<Spec>)
    requires Scored(s) && UniqueCategories(merged) && |CreateAll(s, merged).hypotheses| > |s.hypotheses|
    ensures var s1, n := CreateAll(s, merged), |s.hypotheses|;
            s1.hypotheses[Best(s1.hypotheses, n)].confidence == TopActive(NewHypotheses(s.evidence, s.customer, merged))
  {
    CreateAllKeepsScored(s, merged);
    NewAreActive(s.evidence, s.customer, merged);
    BestIsTop(s.hypotheses, NewHypotheses(s.evidence, s.customer, merged));
  }

  /** The primary after a generation that created something is as confident as the best new row. */
  lemma GeneratedTop(s: State, specs: seq<Spec>)
    requires Scored(s) && |Generated(s, specs).hypotheses| > |s.hypotheses|
    ensures |CreateAll(s, Merge(specs)).hypotheses| > |s.hypotheses|
    ensures Generated(s, specs) == TakeOver(CreateAll(s, Merge(specs)), |s.hypotheses|)
    ensures var after, added := Generated(s, specs), NewHypotheses(s.evidence, s.customer, Merge(specs));
            && after.primary.Some? && after.primary.value < |after.hypotheses|
            && after.hypotheses[after.primary.value].confidence == TopActive(added)
  {
    MergeUnique(specs);
    CreatedTop(s, Merge(specs));
  }

  /**
   Regenerating from the templates on unchanged evidence and flags, in whatever order they are
   listed, finds the same top confidence and so never triggers re-evaluation.
   */
  lemma RegenerationIsStable(s: State, flags: seq<Flag>, permuted: seq<Flag>)
    requires Led(s) && multiset(flags) == multiset(permuted)
    requires |Generated(s, TemplateSpecs(flags)).hypotheses| > |s.hypotheses|
    ensures var once := Generated(s, TemplateSpecs(flags));
            var twice := Generated(once, TemplateSpecs(permuted));
            && twice.reevaluate == once.reevaluate
            && Index(twice.stage) >= Index(once.stage)
            && TopActive(twice.hypotheses) == TopActive(once.hypotheses)
  {
    hide Generated, TakeOver, CreateAll, NewHypotheses, TemplateSpecs, Merge, Scored, ActiveFrom, PrimaryOk;
    var once := Generated(s, TemplateSpecs(flags));
    var twice := Generated(once, TemplateSpecs(permuted));
    GeneratedKeepsLed(s, TemplateSpecs(flags));
    GeneratedKeepsLed(once, TemplateSpecs(permuted));
    GeneratedTop(s, TemplateSpecs(flags));
    PreviousTopIsPrimary(once);
    SameTop(s.evidence, s.customer, flags, permuted);
    if |twice.hypotheses| > |once.hypotheses| {
      GeneratedTop(once, TemplateSpecs(permuted));
      PreviousTopIsPrimary(twice);
      CalmTakeOver(CreateAll(once, Merge(TemplateSpecs(permuted))), |once.hypotheses|, once);
    } else {
      NothingCreated(once, TemplateSpecs(permuted));
    }
  }

  lemma NothingCreated(s: State, specs: seq<Spec>)
    requires Led(s) && |Generated(s, specs).hypotheses| <= |s.hypotheses|
    ensures Generated(s, specs).hypotheses == s.hypotheses
    ensures Generated(s, specs).reevaluate == s.reevaluate && Generated(s, specs).stage == s.stage
  {
    CreateAllKeepsScored(s, Merge(specs));
  }

  lemma SameTop(rows: seq<Evidence>, customer: nat, flags: seq<Flag>, permuted: seq<Flag>)
    requires multiset(flags) == multiset(permuted)
    ensures TopActive(NewHypotheses(rows, customer, Merge(TemplateSpecs(flags))))
            == TopActive(NewHypotheses(rows, customer, Merge(TemplateSpecs(permuted))))
  {
    var a, b := NewHypotheses(rows, customer, Merge(TemplateSpecs(flags))),
      NewHypotheses(rows, customer, Merge(TemplateSpecs(permuted)));
    forall h ensures h in a <==> h in b {
      TemplateOrderIrrelevant(rows, customer, flags, permuted, h);
    }
    TopAtMost(a, b);
    TopAtMost(b, a);
  }

  /** A take-over whose best matches the previous top leaves the re-evaluation mark alone. */
  lemma CalmTakeOver(s: State, from: nat, before: State)
    requires 0 < from < |s.hypotheses| && s.hypotheses[..from] == before.hypotheses
    requires s.hypotheses[Best(s.hypotheses, from)].confidence == TopActive(before.hypotheses)
    requires s.reevaluate == before.reevaluate && s.stage == before.stage
    ensures TakeOver(s, from).reevaluate == before.reevaluate
    ensures Index(TakeOver(s, from).stage) >= Index(before.stage)
  {}
}
