/** Specs proposing the same category become one, citing the union of their evidence. */
module HypothesisMerge {
  import opened Domain
  import opened Sequences

  /** The merged entry after another spec for its category: cited ids are unions without repeats. */
  function Join(entry: Spec, spec: Spec): Spec {
    entry.(supports := Dedup(entry.supports + spec.supports), weakens := Dedup(entry.weakens + spec.weakens))
  }

  function IndexOf(entries: seq<Spec>, category: Category): Option<nat> {
    First(entries, (e: Spec) => e.category == category)
  }

  /** One step of the merge over an ordered dictionary. */
  function Absorb(entries: seq<Spec>, spec: Spec): seq<Spec> {
    match IndexOf(entries, spec.category)
    case None => entries + [spec]
    case Some(i) => entries[i := Join(entries[i], spec)]
  }

  function MergeOnto(entries: seq<Spec>, specs: seq<Spec>): seq<Spec> {
    if specs == [] then entries
    else Absorb(MergeOnto(entries, specs[..|specs| - 1]), specs[|specs| - 1])
  }

  function Merge(specs: seq<Spec>): seq<Spec> {
    MergeOnto([], specs)
  }

  /** The source's loop: a dictionary keyed by category and the order of first appearance. */
  method MergeByCategory(specs: seq<Spec>) returns (entries: seq<Spec>)
    ensures entries == Merge(specs)
  {
    var merged: map<Category, Spec>, order: seq<Category> := map[], [];
    for i := 0 to |specs|
      invariant Represents(merged, order, Merge(specs[..i]))
    {
      var spec := specs[i];
      assert specs[..i + 1][..i] == specs[..i];
      ghost var at := IndexOf(Merge(specs[..i]), spec.category);
      if spec.category !in merged {
        assert at.None?;
        merged := merged[spec.category := spec];
        order := order + [spec.category];
      } else {
        InOrder(merged, order, Merge(specs[..i]), spec.category);
        merged := merged[spec.category := Join(merged[spec.category], spec)];
      }
    }
    assert specs[..|specs|] == specs;
    entries := seq(|order|, k requires 0 <= k < |order| && order[k] in merged => merged[order[k]]);
  }

  ghost predicate Represents(merged: map<Category, Spec>, order: seq<Category>, entries: seq<Spec>) {
    && |order| == |entries|
    && NoDuplicates(order)
    && (forall c :: c in merged <==> c in order)
    && (forall k | 0 <= k < |order| ::
      order[k] in merged && merged[order[k]] == entries[k] && entries[k].category == order[k])
  }

  lemma InOrder(merged: map<Category, Spec>, order: seq<Category>, entries: seq<Spec>, category: Category)
    requires Represents(merged, order, entries) && category in merged
    ensures var at := IndexOf(entries, category);
            && at.Some? && at.value < |order| && order[at.value] == category
            && forall k | 0 <= k < |order| && k != at.value :: order[k] != category
  {
    var k :| 0 <= k < |order| && order[k] == category;
  }

  // ----- Order of first appearance -----

  function Categories(specs: seq<Spec>): seq<Category> {
    if specs == [] then [] else Categories(specs[..|specs| - 1]) + [specs[|specs| - 1].category]
  }

  lemma {:induction false} CategoriesAt(specs: seq<Spec>)
    ensures |Categories(specs)| == |specs|
    ensures forall i | 0 <= i < |specs| :: Categories(specs)[i] == specs[i].category
  {
    if specs != [] {
      CategoriesAt(specs[..|specs| - 1]);
    }
  }

  lemma AbsorbCategories(entries: seq<Spec>, spec: Spec)
    ensures Categories(Absorb(entries, spec)) ==
            if spec.category in Categories(entries) then Categories(entries) else Categories(entries) + [spec.category]
  {
    CategoriesAt(entries);
    CategoriesAt(Absorb(entries, spec));
    if IndexOf(entries, spec.category).None? {
      forall i | 0 <= i < |entries| ensures Categories(entries)[i] != spec.category {}
    } else {
      assert Categories(entries)[IndexOf(entries, spec.category).value] == spec.category;
    }
  }

  /** Output categories are the input categories without repeats, in order of first appearance. */
  lemma {:induction false} MergeKeepsFirstAppearance(specs: seq<Spec>)
    ensures Categories(Merge(specs)) == Dedup(Categories(specs))
  {
    if specs != [] {
      var rest, spec := specs[..|specs| - 1], specs[|specs| - 1];
      MergeKeepsFirstAppearance(rest);
      AbsorbCategories(Merge(rest), spec);
      DedupAppend(Categories(rest), spec.category);
    }
  }

  ghost predicate UniqueCategories(entries: seq<Spec>) {
    forall i, j | 0 <= i < j < |entries| :: entries[i].category != entries[j].category
  }

  lemma MergeUnique(specs: seq<Spec>)
    ensures UniqueCategories(Merge(specs))
  {
    MergeKeepsFirstAppearance(specs);
    CategoriesAt(Merge(specs));
    var cs := Categories(Merge(specs));
    assert forall i, j | 0 <= i < j < |cs| :: cs[i] != cs[j];
    assert forall i | 0 <= i < |cs| :: cs[i] == Merge(specs)[i].category;
  }

  // ----- Incremental fold -----

  lemma MergeOntoSnoc(entries: seq<Spec>, xs: seq<Spec>, x: Spec)
    ensures MergeOnto(entries, xs + [x]) == Absorb(MergeOnto(entries, xs), x)
  {
    assert (xs + [x])[..|xs|] == xs;
  }

  lemma {:induction false} MergeOntoConcat(entries: seq<Spec>, xs: seq<Spec>, ys: seq<Spec>)
    ensures MergeOnto(entries, xs + ys) == MergeOnto(MergeOnto(entries, xs), ys)
  {
    if ys == [] {
      assert xs + ys == xs;
    } else {
      var n := |ys| - 1;
      assert xs + ys == (xs + ys[..n]) + [ys[n]] && ys == ys[..n] + [ys[n]];
      MergeOntoConcat(entries, xs, ys[..n]);
      MergeOntoSnoc(entries, xs + ys[..n], ys[n]);
      MergeOntoSnoc(MergeOnto(entries, xs), ys[..n], ys[n]);
    }
  }

  lemma {:induction false} MergeOfUnique(entries: seq<Spec>)
    requires UniqueCategories(entries)
    ensures Merge(entries) == entries
  {
    if entries != [] {
      var rest := entries[..|entries| - 1];
      assert forall i, j | 0 <= i < j < |rest| :: rest[i] == entries[i] && rest[j] == entries[j];
      MergeOfUnique(rest);
      assert IndexOf(rest, entries[|entries| - 1].category).None?;
    }
  }

  /** Merging in two rounds is merging once. */
  lemma MergeIncremental(xs: seq<Spec>, ys: seq<Spec>)
    ensures Merge(Merge(xs) + ys) == Merge(xs + ys)
  {
    MergeUnique(xs);
    MergeOfUnique(Merge(xs));
    MergeOntoConcat([], Merge(xs), ys);
    MergeOntoConcat([], xs, ys);
  }

  lemma MergeIdempotent(xs: seq<Spec>)
    ensures Merge(Merge(xs)) == Merge(xs)
  {
    MergeUnique(xs);
    MergeOfUnique(Merge(xs));
  }

  // ----- Cited evidence -----

  function CitedBy(spec: Spec, relation: Relation): seq<nat> {
    if relation == Supports then spec.supports else spec.weakens
  }

  function Own(spec: Spec, category: Category, relation: Relation): set<nat> {
    if spec.category == category then Elements(CitedBy(spec, relation)) else {}
  }

  /** Everything the specs of one category cite. */
  function Cited(specs: seq<Spec>, category: Category, relation: Relation): set<nat> {
    if specs == [] then {}
    else Cited(specs[..|specs| - 1], category, relation) + Own(specs[|specs| - 1], category, relation)
  }

  lemma SnocSpec(specs: seq<Spec>, spec: Spec, category: Category, relation: Relation)
    ensures Categories(specs + [spec]) == Categories(specs) + [spec.category]
    ensures Cited(specs + [spec], category, relation) ==
            Cited(specs, category, relation) + Own(spec, category, relation)
  {
    assert (specs + [spec])[..|specs|] == specs;
  }

  /** Merging cites, for each category, exactly what its specs cited. */
  lemma {:induction false} MergeUnionsCitations(specs: seq<Spec>, category: Category, relation: Relation)
    ensures Cited(Merge(specs), category, relation) == Cited(specs, category, relation)
  {
    if specs != [] {
      var rest, spec := specs[..|specs| - 1], specs[|specs| - 1];
      MergeUnionsCitations(rest, category, relation);
      AbsorbCites(Merge(rest), spec, category, relation);
    }
  }

  lemma AbsorbCites(entries: seq<Spec>, spec: Spec, category: Category, relation: Relation)
    ensures Cited(Absorb(entries, spec), category, relation) ==
            Cited(entries, category, relation) + Own(spec, category, relation)
  {
    var at := IndexOf(entries, spec.category);
    if at.Some? {
      JoinInPlace(entries, at.value, spec, category, relation);
    } else {
      assert (entries + [spec])[..|entries|] == entries;
    }
  }

  lemma {:induction false} JoinInPlace(entries: seq<Spec>, i: nat, spec: Spec, category: Category, relation: Relation)
    requires i < |entries| && entries[i].category == spec.category
    ensures Cited(entries[i := Join(entries[i], spec)], category, relation)
            == Cited(entries, category, relation) + Own(spec, category, relation)
  {
    hide Dedup, Elements;
    var n, after := |entries| - 1, entries[i := Join(entries[i], spec)];
    if i == n {
      assert after[..n] == entries[..n];
      JoinCites(entries[i], spec, relation);
    } else {
      assert after[..n] == entries[..n][i := Join(entries[i], spec)];
      JoinInPlace(entries[..n], i, spec, category, relation);
    }
  }

  lemma JoinCites(entry: Spec, spec: Spec, relation: Relation)
    ensures Elements(CitedBy(Join(entry, spec), relation)) ==
            Elements(CitedBy(entry, relation)) + Elements(CitedBy(spec, relation))
  {}

  /** An entry fed by two or more specs cites nothing twice; so does one fed by clean specs. */
  lemma {:induction false} MergedEntryIsClean(specs: seq<Spec>, k: nat)
    requires k < |Merge(specs)|
    ensures Count(specs, OfCategory(Merge(specs)[k].category)) >= 2 ==> Clean(Merge(specs)[k])
    ensures (forall s | s in specs && s.category == Merge(specs)[k].category :: Clean(s)) ==> Clean(Merge(specs)[k])
  {
    var rest, spec := specs[..|specs| - 1], specs[|specs| - 1];
    assert specs == rest + [spec];
    MergeUnique(rest);
    AbsorbClean(Merge(rest), spec, k);
    var c := Merge(specs)[k].category;
    if k < |Merge(rest)| {
      MergedEntryIsClean(rest, k);
      assert forall s | s in rest :: s in specs;
    } else {
      AbsentCount(rest, spec);
    }
  }

  /** A category that only one spec feeds keeps that spec as it is. */
  lemma {:induction false} LoneSpecStays(specs: seq<Spec>, k: nat)
    requires k < |Merge(specs)|
    ensures Count(specs, OfCategory(Merge(specs)[k].category)) <= 1 ==> Merge(specs)[k] in specs
  {
    var rest, spec := specs[..|specs| - 1], specs[|specs| - 1];
    assert specs == rest + [spec];
    AbsorbAt(Merge(rest), spec, k);
    if k < |Merge(rest)| {
      LoneSpecStays(rest, k);
      if Merge(rest)[k].category == spec.category {
        PresentCount(rest, k);
      }
    }
  }

  lemma AbsorbAt(entries: seq<Spec>, spec: Spec, k: nat)
    requires k < |Absorb(entries, spec)|
    ensures var e := Absorb(entries, spec)[k];
            && (k >= |entries| ==> e == spec)
            && (k < |entries| ==> e.category == entries[k].category)
            && (k < |entries| && entries[k].category != spec.category ==> e == entries[k])
  {}

  lemma PresentCount(specs: seq<Spec>, k: nat)
    requires k < |Merge(specs)|
    ensures Count(specs, OfCategory(Merge(specs)[k].category)) >= 1
  {
    MergeKeepsFirstAppearance(specs);
    CategoriesAt(specs);
    CategoriesAt(Merge(specs));
    CountZero(specs, OfCategory(Merge(specs)[k].category));
    assert Categories(Merge(specs))[k] in Categories(specs);
  }

  lemma AbsorbClean(entries: seq<Spec>, spec: Spec, k: nat)
    requires k < |Absorb(entries, spec)|
    ensures var e := Absorb(entries, spec)[k];
            && (k == |entries| ==> e == spec && IndexOf(entries, spec.category).None?)
            && (k < |entries| ==> e.category == entries[k].category)
            && (k < |entries| && UniqueCategories(entries) ==>
              Clean(e) || (e == entries[k] && e.category != spec.category))
  {}

  lemma AbsentCount(rest: seq<Spec>, spec: Spec)
    requires IndexOf(Merge(rest), spec.category).None?
    ensures Count(rest, OfCategory(spec.category)) == 0
  {
    MergeKeepsFirstAppearance(rest);
    CategoriesAt(rest);
    CategoriesAt(Merge(rest));
    CountZero(rest, OfCategory(spec.category));
    forall i | 0 <= i < |rest| ensures rest[i].category != spec.category {
      assert Categories(rest)[i] in Categories(Merge(rest));
    }
  }

  predicate Clean(s: Spec) {
    NoDuplicates(s.supports) && NoDuplicates(s.weakens)
  }

  function OfCategory(category: Category): Spec -> bool {
    (s: Spec) => s.category == category
  }

  // ----- What exactly a merged entry cites -----

  /** Everything the specs of one category cite, in their order, repeats included. */
  function AllCited(specs: seq<Spec>, category: Category, relation: Relation): seq<nat> {
    if specs == [] then []
    else
      var spec := specs[|specs| - 1];
      AllCited(specs[..|specs| - 1], category, relation)
      + if spec.category == category then CitedBy(spec, relation) else []
  }

  /** The origin of the first spec of a category. */
  predicate IsOriginOf(specs: seq<Spec>, category: Category, fromModel: bool) {
    exists j :: 0 <= j < |specs| && specs[j].category == category && specs[j].fromModel == fromModel
      && forall i | 0 <= i < j :: specs[i].category != category
  }

  lemma {:induction false} DedupAgain<T(!new)>(s: seq<T>, t: seq<T>)
    ensures Dedup(Dedup(s) + t) == Dedup(s + t)
  {
    hide Dedup, NoDuplicates;
    if t == [] {
      assert Dedup(s) + t == Dedup(s) && s + t == s;
    } else {
      var n := |t| - 1;
      DedupAgain(s, t[..n]);
      assert Dedup(s) + t == (Dedup(s) + t[..n]) + [t[n]] && s + t == (s + t[..n]) + [t[n]];
      DedupAppend(Dedup(s) + t[..n], t[n]);
      DedupAppend(s + t[..n], t[n]);
    }
  }

  lemma {:induction false} NothingCited(specs: seq<Spec>, category: Category, relation: Relation)
    requires Count(specs, OfCategory(category)) == 0
    ensures AllCited(specs, category, relation) == []
  {
    if specs != [] {
      NothingCited(specs[..|specs| - 1], category, relation);
    }
  }

  /**
   A merged entry comes from the first spec of its category and cites what the specs of that category cite
   in their order: each row once, where it first occurs, if there are two specs or more, else as listed.
   */
  lemma {:induction false} MergedEntryIs(specs: seq<Spec>, k: nat, relation: Relation)
    requires k < |Merge(specs)|
    ensures var e := Merge(specs)[k];
            var all := AllCited(specs, e.category, relation);
            && CitedBy(e, relation) == (if Count(specs, OfCategory(e.category)) >= 2 then Dedup(all) else all)
            && IsOriginOf(specs, e.category, e.fromModel)
  {
    hide Dedup, Count, Merge, Absorb, AllCited, CitedBy;
    MergeOfNothing(specs, k);
    var rest, spec := specs[..|specs| - 1], specs[|specs| - 1];
    assert specs == rest + [spec];
    MergeSnoc(rest, spec);
    AllCitedSnoc(rest, spec, Merge(specs)[k].category, relation);
    AbsorbAt(Merge(rest), spec, k);
    var e := Merge(specs)[k];
    CountAppend(rest, spec, OfCategory(e.category));
    if k < |Merge(rest)| {
      MergedEntryIs(rest, k, relation);
      OriginStays(rest, spec, e.category, Merge(rest)[k].fromModel);
      PresentCount(rest, k);
      MergeUnique(rest);
      if e.category == spec.category {
        DedupAgain(AllCited(rest, e.category, relation), CitedBy(spec, relation));
        AbsorbJoins(Merge(rest), spec, k);
        JoinedCites(Merge(rest)[k], spec, relation);
      } else {
        assert AllCited(rest, e.category, relation) + [] == AllCited(rest, e.category, relation);
      }
    } else {
      AbsentFromMerge(rest, spec, k);
      AbsentCount(rest, spec);
      NothingCited(rest, e.category, relation);
      CountZero(rest, OfCategory(e.category));
      assert specs[|rest|] == spec;
    }
  }

  lemma AllCitedSnoc(specs: seq<Spec>, spec: Spec, category: Category, relation: Relation)
    ensures AllCited(specs + [spec], category, relation) ==
            AllCited(specs, category, relation) + if spec.category == category then CitedBy(spec, relation) else []
  {
    assert (specs + [spec])[..|specs|] == specs;
  }

  lemma JoinedCites(entry: Spec, spec: Spec, relation: Relation)
    ensures CitedBy(Join(entry, spec), relation) == Dedup(CitedBy(entry, relation) + CitedBy(spec, relation))
    ensures Join(entry, spec).fromModel == entry.fromModel
  {}

  lemma MergeOfNothing(specs: seq<Spec>, k: nat)
    requires k < |Merge(specs)|
    ensures specs != []
  {}

  lemma MergeSnoc(rest: seq<Spec>, spec: Spec)
    ensures Merge(rest + [spec]) == Absorb(Merge(rest), spec)
  {
    MergeOntoSnoc([], rest, spec);
  }

  lemma AbsorbJoins(entries: seq<Spec>, spec: Spec, k: nat)
    requires k < |entries| && UniqueCategories(entries) && entries[k].category == spec.category
    ensures Absorb(entries, spec)[k] == Join(entries[k], spec)
  {}

  lemma AbsentFromMerge(rest: seq<Spec>, spec: Spec, k: nat)
    requires |Merge(rest)| <= k < |Absorb(Merge(rest), spec)|
    ensures IndexOf(Merge(rest), spec.category).None?
  {}

  lemma OriginStays(rest: seq<Spec>, spec: Spec, category: Category, fromModel: bool)
    requires IsOriginOf(rest, category, fromModel)
    ensures IsOriginOf(rest + [spec], category, fromModel)
  {
    var j :| 0 <= j < |rest| && rest[j].category == category && rest[j].fromModel == fromModel
      && forall i | 0 <= i < j :: rest[i].category != category;
    assert (rest + [spec])[j] == rest[j];
  }
}
