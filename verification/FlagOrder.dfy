/** Which hypothesis becomes primary when open flags are listed in another order. */
module FlagOrder {
  import opened Domain
  import opened Sequences
  import opened CaseState
  import opened EvidenceStore
  import opened Timeline
  import opened Uncertainty
  import opened HypothesisMerge
  import opened HypothesisEngine
  import opened HypothesisInvariants
  import opened ActionSafety
  import opened Tracing
  import opened Runs
  import opened Corroboration
  import opened Witnesses

  // ----- The primary of a batch -----

  /** What the templates make of these flags, in order. */
  function FromFlags(rows: seq<Evidence>, customer: nat, flags: seq<Flag>): seq<Hypothesis> {
    NewHypotheses(rows, customer, Merge(TemplateSpecs(flags)))
  }

  function PrimaryCategory(s: State): Option<Category> {
    if s.primary.Some? && s.primary.value < |s.hypotheses| then Some(s.hypotheses[s.primary.value].category) else None
  }

  /** The top confidence belongs to one hypothesis alone. */
  ghost predicate TopIsUnique(added: seq<Hypothesis>)
    requires added != []
  {
    forall i | 0 <= i < |added| && i != Best(added, 0) :: added[i].confidence < added[Best(added, 0)].confidence
  }

  /** A generation from the templates that creates something makes the first of the best of them primary. */
  lemma PrimaryIsBest(s: State, flags: seq<Flag>)
    requires Led(s) && |Generated(s, TemplateSpecs(flags)).hypotheses| > |s.hypotheses|
    ensures var added := FromFlags(s.evidence, s.customer, flags);
            added != [] && PrimaryCategory(Generated(s, TemplateSpecs(flags))) == Some(added[Best(added, 0)].category)
  {
    hide NewHypotheses, Merge, TemplateSpecs, CreateAll, Scored, ActiveFrom, PrimaryOk, Best, Retire, TopActive;
    var specs, added := TemplateSpecs(flags), FromFlags(s.evidence, s.customer, flags);
    GeneratedTop(s, specs);
    CreateAllKeepsScored(s, Merge(specs));
    var s1 := CreateAll(s, Merge(specs));
    assert s1.hypotheses == s.hypotheses + added;
    BestOfAdded(s.hypotheses, added);
    RetireKeepsCategory(s1.hypotheses, |s.hypotheses|, Best(s1.hypotheses, |s.hypotheses|));
  }

  lemma RetireKeepsCategory(hypotheses: seq<Hypothesis>, from: nat, i: nat)
    requires i < |hypotheses|
    ensures |Retire(hypotheses, from)| == |hypotheses|
    ensures Retire(hypotheses, from)[i].category == hypotheses[i].category
  {}

  lemma CreatesOrNot(s: State, flags: seq<Flag>)
    requires Led(s) && HasEvidence(s)
    ensures |Generated(s, TemplateSpecs(flags)).hypotheses| > |s.hypotheses| <==>
            FromFlags(s.evidence, s.customer, flags) != []
  {
    hide NewHypotheses, Merge, TemplateSpecs, CreateAll, Scored, ActiveFrom, PrimaryOk, TakeOver;
    CreateAllKeepsScored(s, Merge(TemplateSpecs(flags)));
    if TemplateSpecs(flags) == [] {
      NothingFromNothing(s.evidence, s.customer);
    }
  }

  lemma NothingFromNothing(rows: seq<Evidence>, customer: nat)
    ensures NewHypotheses(rows, customer, Merge([])) == []
  {}

  // ----- Any of the best can lead -----

  lemma {:induction false} SpecsOfHead(f: Flag, rest: seq<Flag>)
    ensures TemplateSpecs([f] + rest) == SpecFor(f) + TemplateSpecs(rest)
  {
    var all := [f] + rest;
    if rest == [] {
      assert all[..0] == [] && all[0] == f;
    } else {
      var n := |rest| - 1;
      assert all[..|all| - 1] == [f] + rest[..n];
      SpecsOfHead(f, rest[..n]);
    }
  }

  lemma {:induction false} DedupHead<T(!new)>(s: seq<T>)
    requires s != []
    ensures Dedup(s) != [] && Dedup(s)[0] == s[0]
  {
    if |s| > 1 {
      DedupHead(s[..|s| - 1]);
    }
  }

  /** The category of the first spec heads the merged entries. */
  lemma FirstSpecLeads(specs: seq<Spec>)
    requires specs != []
    ensures Merge(specs) != [] && Merge(specs)[0].category == specs[0].category
  {
    MergeKeepsFirstAppearance(specs);
    CategoriesAt(specs);
    CategoriesAt(Merge(specs));
    DedupHead(Categories(specs));
  }

  lemma {:induction false} FirstStored(rows: seq<Evidence>, customer: nat, entries: seq<Spec>, h: Hypothesis)
    requires entries != [] && StoredAs(rows, customer, entries[0], h)
    ensures NewHypotheses(rows, customer, entries) != [] && NewHypotheses(rows, customer, entries)[0] == h
  {
    hide Score, ValidIds;
    if |entries| == 1 {
      assert entries[..0] == [];
    } else {
      FirstStored(rows, customer, entries[..|entries| - 1], h);
    }
  }

  /** With a flag of its category listed first, a stored hypothesis is the first of its batch. */
  lemma ListedFirstIsStoredFirst(rows: seq<Evidence>, customer: nat, f: Flag, rest: seq<Flag>, h: Hypothesis)
    requires CategoryFor(f) == Some(h.category) && h in FromFlags(rows, customer, [f] + rest)
    ensures FromFlags(rows, customer, [f] + rest) != [] && FromFlags(rows, customer, [f] + rest)[0] == h
  {
    hide Score, ValidIds, NewHypotheses, Merge, TemplateSpecs;
    var specs := TemplateSpecs([f] + rest);
    var entries := Merge(specs);
    SpecsOfHead(f, rest);
    FirstSpecLeads(specs);
    MergeUnique(specs);
    StoredFor(rows, customer, entries, h);
    var k :| 0 <= k < |entries| && StoredAs(rows, customer, entries[k], h);
    assert k == 0;
    FirstStored(rows, customer, entries, h);
  }

  lemma MovedToFront(flags: seq<Flag>, k: nat)
    requires k < |flags|
    ensures multiset([flags[k]] + (flags[..k] + flags[k + 1..])) == multiset(flags)
  {
    assert flags == flags[..k] + [flags[k]] + flags[k + 1..];
  }

  lemma FlagOfStored(rows: seq<Evidence>, customer: nat, flags: seq<Flag>, h: Hypothesis) returns (k: nat)
    requires h in FromFlags(rows, customer, flags)
    ensures k < |flags| && CategoryFor(flags[k]) == Some(h.category)
  {
    hide Score, ValidIds, NewHypotheses, Merge, TemplateSpecs;
    var entries := Merge(TemplateSpecs(flags));
    StoredFor(rows, customer, entries, h);
    var m :| 0 <= m < |entries| && StoredAs(rows, customer, entries[m], h);
    EntryCites(flags, m, entries[m]);
    TemplateCites(flags, h.category);
    var f :| f in flags && CategoryFor(f) == Some(h.category);
    k :| 0 <= k < |flags| && flags[k] == f;
  }

  /** Any of the most confident hypotheses becomes primary under some listing of the flags. */
  lemma AnyTopCanLead(s: State, flags: seq<Flag>, h: Hypothesis)
    requires Led(s) && HasEvidence(s) && h in FromFlags(s.evidence, s.customer, flags)
    requires forall x | x in FromFlags(s.evidence, s.customer, flags) :: x.confidence <= h.confidence
    ensures exists permuted :: multiset(permuted) == multiset(flags)
              && PrimaryCategory(Generated(s, TemplateSpecs(permuted))) == Some(h.category)
  {
    hide FromFlags, Led, HasEvidence, Generated, TemplateSpecs, PrimaryCategory;
    var k := FlagOfStored(s.evidence, s.customer, flags, h);
    var rest := flags[..k] + flags[k + 1..];
    var permuted := [flags[k]] + rest;
    MovedToFront(flags, k);
    SameBatch(s.evidence, s.customer, flags, permuted);
    ListedFirstIsStoredFirst(s.evidence, s.customer, flags[k], rest, h);
    var added := FromFlags(s.evidence, s.customer, permuted);
    assert forall i | 0 <= i < |added| :: added[i] in added;
    BestIsFirstTop(added, 0, 0);
    CreatesOrNot(s, permuted);
    PrimaryIsBest(s, permuted);
  }

  lemma SameBatch(rows: seq<Evidence>, customer: nat, flags: seq<Flag>, permuted: seq<Flag>)
    requires multiset(permuted) == multiset(flags)
    ensures forall h :: h in FromFlags(rows, customer, flags) <==> h in FromFlags(rows, customer, permuted)
  {
    hide NewHypotheses, Merge, TemplateSpecs;
    forall h ensures h in FromFlags(rows, customer, flags) <==> h in FromFlags(rows, customer, permuted) {
      TemplateOrderIrrelevant(rows, customer, flags, permuted, h);
    }
  }

  // ----- The primary's category -----

  /** Every listing of the flags makes a hypothesis of the same category primary. */
  ghost predicate OrderFree(s: State, flags: seq<Flag>) {
    forall permuted: seq<Flag> | multiset(permuted) == multiset(flags) ::
      PrimaryCategory(Generated(s, TemplateSpecs(permuted))) == PrimaryCategory(Generated(s, TemplateSpecs(flags)))
  }

  lemma UniqueTopLeads(s: State, flags: seq<Flag>, permuted: seq<Flag>)
    requires Led(s) && HasEvidence(s) && FromFlags(s.evidence, s.customer, flags) != []
    requires TopIsUnique(FromFlags(s.evidence, s.customer, flags)) && multiset(permuted) == multiset(flags)
    ensures PrimaryCategory(Generated(s, TemplateSpecs(permuted))) ==
            PrimaryCategory(Generated(s, TemplateSpecs(flags)))
  {
    hide FromFlags, Led, HasEvidence, Generated, TemplateSpecs, PrimaryCategory;
    var a, b := FromFlags(s.evidence, s.customer, flags), FromFlags(s.evidence, s.customer, permuted);
    SameBatch(s.evidence, s.customer, flags, permuted);
    assert a[0] in b;
    CreatesOrNot(s, flags);
    CreatesOrNot(s, permuted);
    PrimaryIsBest(s, flags);
    PrimaryIsBest(s, permuted);
    SameTopRow(a, b);
  }

  lemma SameTopRow(a: seq<Hypothesis>, b: seq<Hypothesis>)
    requires a != [] && b != [] && TopIsUnique(a) && forall h :: h in a <==> h in b
    ensures a[Best(a, 0)] == b[Best(b, 0)]
  {
    var x, y := a[Best(a, 0)], b[Best(b, 0)];
    assert x in b && y in a;
    var i :| 0 <= i < |a| && a[i] == y;
    var j :| 0 <= j < |b| && b[j] == x;
    assert x.confidence <= y.confidence;
  }

  lemma SharedTopDiffers(s: State, flags: seq<Flag>)
    requires Led(s) && HasEvidence(s) && FromFlags(s.evidence, s.customer, flags) != []
    requires !TopIsUnique(FromFlags(s.evidence, s.customer, flags))
    ensures !OrderFree(s, flags)
  {
    hide FromFlags, Led, HasEvidence, Generated, TemplateSpecs, PrimaryCategory;
    var added := FromFlags(s.evidence, s.customer, flags);
    var top := Best(added, 0);
    var i :| 0 <= i < |added| && i != top && added[i].confidence >= added[top].confidence;
    BatchIsDistinct(s.evidence, s.customer, flags);
    forall x | x in added ensures x.confidence <= added[top].confidence {
      var k :| 0 <= k < |added| && added[k] == x;
    }
    assert added[i] in added && added[top] in added;
    AnyTopCanLead(s, flags, added[i]);
    AnyTopCanLead(s, flags, added[top]);
  }

  lemma BatchIsDistinct(rows: seq<Evidence>, customer: nat, flags: seq<Flag>)
    ensures var added := FromFlags(rows, customer, flags);
            forall i, j | 0 <= i < j < |added| :: added[i].category != added[j].category
  {
    hide NewHypotheses, Merge, TemplateSpecs;
    MergeUnique(TemplateSpecs(flags));
    NewAreActive(rows, customer, Merge(TemplateSpecs(flags)));
  }

  /**
   Which category becomes primary does not depend on how the flags are listed if and only if the
   top confidence is not shared.
   */
  lemma PrimaryIgnoresOrderIff(s: State, flags: seq<Flag>)
    requires Led(s) && |Generated(s, TemplateSpecs(flags)).hypotheses| > |s.hypotheses|
    ensures FromFlags(s.evidence, s.customer, flags) != []
    ensures OrderFree(s, flags) <==> TopIsUnique(FromFlags(s.evidence, s.customer, flags))
  {
    hide FromFlags, Led, TemplateSpecs, PrimaryCategory, TakeOver, CreateAll, Merge;
    CreatesOrNot(s, flags);
    if TopIsUnique(FromFlags(s.evidence, s.customer, flags)) {
      forall permuted: seq<Flag> | multiset(permuted) == multiset(flags)
        ensures PrimaryCategory(Generated(s, TemplateSpecs(permuted)))
                == PrimaryCategory(Generated(s, TemplateSpecs(flags)))
      {
        UniqueTopLeads(s, flags, permuted);
      }
    } else {
      SharedTopDiffers(s, flags);
    }
  }

  /** In every reachable case. */
  lemma PrimaryIgnoresOrder(caseId: nat, customer: nat, prior: seq<Delivery>, ops: seq<Op>)
    ensures var s := Case(caseId, customer, prior, ops);
            |Generated(s, TemplateSpecs(s.flags)).hypotheses| > |s.hypotheses| ==>
              && FromFlags(s.evidence, s.customer, s.flags) != []
              && (OrderFree(s, s.flags) <==> TopIsUnique(FromFlags(s.evidence, s.customer, s.flags)))
  {
    hide Case, Generated, TemplateSpecs, FromFlags, OrderFree, TopIsUnique;
    CaseHolds(caseId, customer, prior, ops);
    var s := Case(caseId, customer, prior, ops);
    if |Generated(s, TemplateSpecs(s.flags)).hypotheses| > |s.hypotheses| {
      PrimaryIgnoresOrderIff(s, s.flags);
    }
  }

  // ----- A shared top -----

  /** One order paid twice, and neither payment followed by fulfilment. */
  function PaidTwice(i: nat): Delivery {
    Delivery(0, Some(0), EvidenceKey(Payment, i, 0), 0, Payload(Captured, NoDisposition, 0), 0)
  }

  const PAYMENTS := [NewRow(PaidTwice(0)), NewRow(PaidTwice(1))]

  const TWO_DAYS_LATER := STALE_AFTER + 1

  function Lapse(i: nat): Flag {
    Flag(Missing, [i], MissingFollowup(FulfillmentUpdate, Payment, i))
  }

  /** What detection raises two days later. */
  function PaidTwiceFlags(): seq<Flag> {
    [Flag(Duplicate, [0, 1], CapturedTwice(2, Some(0))), Lapse(0), Lapse(1), Flag(Stale, [0, 1], NoActivitySince(0))]
  }

  lemma BothCurrent()
    ensures forall id: nat :: Current(PAYMENTS, 0, id) <==> id < 2
  {}

  lemma CapturesOf(order: Option<nat>)
    ensures Of(PAYMENTS, 0, CapturedPayment, order) == if order == Some(0) then {0, 1} else {}
    ensures Of(PAYMENTS, 0, TerminalFulfillment, order) == {} && Of(PAYMENTS, 0, DeliveredFulfillment, order) == {}
    ensures Outcomes(PAYMENTS, 0, order) == {}
  {}

  lemma PaymentIsOverdue(i: nat)
    requires i < 2
    ensures Overdue(PAYMENTS, 0, TWO_DAYS_LATER, i)
    ensures MissingFor(PAYMENTS[i], FulfillmentUpdate) == MissingFollowup(FulfillmentUpdate, Payment, i)
  {}

  lemma NothingElseIsDue(d: Description, cited: set<nat>)
    requires Cites(PAYMENTS, 0, TWO_DAYS_LATER, d, cited)
    ensures exists k :: 0 <= k < 4 && PaidTwiceFlags()[k].description == d
  {
    var flags := PaidTwiceFlags();
    assert flags[1] == Lapse(0) && flags[2] == Lapse(1);
    match d
    case CapturedTwice(n, order) =>
      CapturesOf(order);
      assert flags[0].description == d;
    case ConflictingOutcomes(order, _) => CapturesOf(order);
    case DisputedDelivery(order) => CapturesOf(order);
    case MissingFollowup(_, _, _) =>
      var id :| cited == {id} && Overdue(PAYMENTS, 0, TWO_DAYS_LATER, id)
        && d == MissingFor(PAYMENTS[id], ExpectedFollowup(PAYMENTS[id].key.source).value.0);
      assert flags[id + 1].description == d;
    case NoActivitySince(mostRecent) =>
      var id: nat :| Latest(PAYMENTS, 0, id) && PAYMENTS[id].occurredAt == mostRecent;
      assert flags[3].description == d;
  }

  lemma EachIsJustified(k: nat)
    requires k < 4
    ensures Justified(PAYMENTS, 0, TWO_DAYS_LATER, PaidTwiceFlags()[k])
  {
    var f := PaidTwiceFlags()[k];
    BothCurrent();
    if k == 0 {
      CapturesOf(Some(0));
      assert Elements([0, 1]) == {0, 1};
    } else if k < 3 {
      PaymentIsOverdue(k - 1);
      assert f == Lapse(k - 1) && Elements([k - 1]) == {k - 1};
    } else {
      assert Latest(PAYMENTS, 0, 0);
      assert Elements([0, 1]) == set id: nat | id < 2 && Current(PAYMENTS, 0, id) && PAYMENTS[id].occurredAt == 0;
    }
  }

  lemma PaymentsAreDetected()
    ensures Detects(PAYMENTS, 0, TWO_DAYS_LATER, {}, PaidTwiceFlags())
  {
    hide Justified, Cites;
    var flags := PaidTwiceFlags();
    forall k | 0 <= k < 4 ensures Justified(PAYMENTS, 0, TWO_DAYS_LATER, flags[k]) {
      EachIsJustified(k);
    }
    forall d | Violated(PAYMENTS, 0, TWO_DAYS_LATER, d) ensures IsOpen({}, flags, d) {
      var cited :| Cites(PAYMENTS, 0, TWO_DAYS_LATER, d, cited);
      NothingElseIsDue(d, cited);
      var k :| 0 <= k < 4 && flags[k].description == d;
      assert flags[k] in flags;
    }
  }

  lemma NoSpecs()
    ensures TemplateSpecs([]) == []
  {}

  lemma {:induction false} PaymentSpecs()
    ensures TemplateSpecs(PaidTwiceFlags()) ==
            [Spec(DuplicateCharge, [0, 1], [], false), Spec(FulfillmentNeverStarted, [0], [], false),
             Spec(FulfillmentNeverStarted, [1], [], false)]
  {
    hide TemplateSpecs;
    var flags := PaidTwiceFlags();
    NoSpecs();
    assert flags == [flags[0]] + ([Lapse(0)] + ([Lapse(1)] + ([flags[3]] + [])));
    SpecsOfHead(flags[3], []);
    SpecsOfHead(Lapse(1), [flags[3]] + []);
    SpecsOfHead(Lapse(0), [Lapse(1)] + ([flags[3]] + []));
    SpecsOfHead(flags[0], [Lapse(0)] + ([Lapse(1)] + ([flags[3]] + [])));
  }

  lemma {:induction false} PaymentEntries()
    ensures Merge(TemplateSpecs(PaidTwiceFlags())) ==
            [Spec(DuplicateCharge, [0, 1], [], false), Spec(FulfillmentNeverStarted, [0, 1], [], false)]
  {
    var a, b, c := Spec(DuplicateCharge, [0, 1], [], false), Spec(FulfillmentNeverStarted, [0], [], false),
                   Spec(FulfillmentNeverStarted, [1], [], false);
    PaymentSpecs();
    assert [a, b, c] == [a, b] + [c];
    MergeOntoSnoc([], [a, b], c);
    MergeOfUnique([a, b]);
    assert IndexOf([a, b], FulfillmentNeverStarted) == Some(1);
    assert Dedup([0] + [1]) == [0, 1];
  }

  lemma {:induction false} PaymentScore(spec: Spec)
    requires spec.supports == [0, 1] && spec.weakens == []
    ensures ValidIds(PAYMENTS, 0, spec.supports) != [] && Score(PAYMENTS, 0, spec) == 6_667
  {
    BothCurrent();
    FilterAll(spec.supports, Citable(PAYMENTS, 0));
    var first: seq<nat>, second: seq<nat> := [0], [1];
    assert spec.supports == first + second;
    TotalConcat(first, second, WeightOf(PAYMENTS));
    TotalOfOne(first, 0, WeightOf(PAYMENTS));
    TotalOfOne(second, 1, WeightOf(PAYMENTS));
  }

  lemma {:induction false} PaymentHypotheses()
    ensures FromFlags(PAYMENTS, 0, PaidTwiceFlags()) ==
            [Hypothesis(DuplicateCharge, 6_667, Active), Hypothesis(FulfillmentNeverStarted, 6_667, Active)]
  {
    hide Score, ValidIds, Merge, TemplateSpecs;
    var a, b := Spec(DuplicateCharge, [0, 1], [], false), Spec(FulfillmentNeverStarted, [0, 1], [], false);
    PaymentEntries();
    PaymentScore(a);
    PaymentScore(b);
    assert [a, b][..1] == [a];
    OnlyOneIsNew(PAYMENTS, a);
  }

  lemma PaymentsArrive()
    ensures exists s :: Early(s, PaidTwiceFlags(), PAYMENTS) && s.hypotheses == []
  {
    hide Inv, Reachable, Undecided, Ingested, Reconciled;
    var s0 := Opened(0, 0, []);
    var s1 := Reconciled(s0, []);
    OpensWithFlags([], s0, s1);
    var s2, s3 := IngestInto(s1, PaidTwice(0)), IngestInto(IngestInto(s1, PaidTwice(0)), PaidTwice(1));
    PaymentRows();
    DeliverKeeps(s1, PaidTwice(0));
    ReachesNext(s1, Deliver(PaidTwice(0)), s2);
    DeliverKeeps(s2, PaidTwice(1));
    ReachesNext(s2, Deliver(PaidTwice(1)), s3);
    GapsRaised(s3, PaidTwiceFlags(), PAYMENTS);
  }

  lemma PaymentRows()
    ensures Ingested([], PaidTwice(0)) == [NewRow(PaidTwice(0))]
    ensures Ingested([NewRow(PaidTwice(0))], PaidTwice(1)) == PAYMENTS
  {}

  /**
   The order does matter: in a reachable case whose flags are exactly what detection raises, the two
   categories they suggest are equally confident, and which one becomes primary is up to the listing.
   */
  lemma SharedTopIsReachable()
    ensures exists s :: Reachable(s) && Detects(s.evidence, s.customer, TWO_DAYS_LATER, {}, s.flags)
              && |Generated(s, TemplateSpecs(s.flags)).hypotheses| > |s.hypotheses| && !OrderFree(s, s.flags)
  {
    hide Inv, Reachable, Undecided, Detects, Generated, OrderFree;
    PaymentsArrive();
    var s :| Early(s, PaidTwiceFlags(), PAYMENTS) && s.hypotheses == [];
    PaymentsAreDetected();
    PaymentHypotheses();
    SharesItsTop(s);
  }

  lemma SharesItsTop(s: State)
    requires Early(s, PaidTwiceFlags(), PAYMENTS)
    requires FromFlags(PAYMENTS, 0, PaidTwiceFlags()) ==
             [Hypothesis(DuplicateCharge, 6_667, Active), Hypothesis(FulfillmentNeverStarted, 6_667, Active)]
    ensures |Generated(s, TemplateSpecs(s.flags)).hypotheses| > |s.hypotheses| && !OrderFree(s, s.flags)
  {
    hide Safe, Traced, Reachable, Undecided, Generated, TemplateSpecs, FromFlags, OrderFree;
    assert IsCurrent(0)(s.evidence[0]);
    var added := FromFlags(PAYMENTS, 0, PaidTwiceFlags());
    assert added[0].confidence == added[1].confidence;
    CreatesOrNot(s, s.flags);
    PrimaryIgnoresOrderIff(s, s.flags);
  }
}
