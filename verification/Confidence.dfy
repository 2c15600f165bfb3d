/** Confidence of a hypothesis: always recomputed from its evidence links, never proposed. */
module Confidence {
  import opened Domain
  import opened Rounding
  import opened Sequences

  const ONE := 10_000               // confidence 1.0
  const ACTION_THRESHOLD := 6_000
  const REEVALUATION_DELTA := 1_500
  const UNIT := 10                  // the + 1 of the formula, in tenths

  /** Source reliability, in tenths. */
  function SourceWeight(source: Source): nat {
    match source
    case Order => 10
    case Payment => 10
    case StoreTransaction => 10
    case FulfillmentUpdate => 9
    case Return => 9
    case ItsmIncident => 9
    case ContactCenterRecord => 7
    case WebAppEvent => 5
  }

  function WeightIn(hypothesis: nat, relation: Relation): Link -> nat {
    (l: Link) => if l.hypothesis == hypothesis && l.relation == relation then l.weight else 0
  }

  function Weighted(links: seq<Link>, hypothesis: nat, relation: Relation): nat {
    Total(links, WeightIn(hypothesis, relation))
  }

  /** supports / (supports + weakens + 1), to four digits. */
  function Ratio(supports: nat, weakens: nat): nat {
    RoundHalfEven(ONE * supports, supports + weakens + UNIT)
  }

  function ConfidenceOf(links: seq<Link>, hypothesis: nat): nat {
    Ratio(Weighted(links, hypothesis, Supports), Weighted(links, hypothesis, Weakens))
  }

  /** The source's loop over the link table. */
  method ComputeConfidence(links: seq<Link>, hypothesis: nat) returns (confidence: nat)
    ensures confidence == ConfidenceOf(links, hypothesis)
  {
    var supports, weakens := 0, 0;
    for i := 0 to |links|
      invariant supports == Weighted(links[..i], hypothesis, Supports)
      invariant weakens == Weighted(links[..i], hypothesis, Weakens)
    {
      assert links[..i + 1][..i] == links[..i];
      if links[i].hypothesis == hypothesis {
        if links[i].relation == Supports {
          supports := supports + links[i].weight;
        } else {
          weakens := weakens + links[i].weight;
        }
      }
    }
    assert links[..|links|] == links;
    confidence := RoundHalfEven(ONE * supports, supports + weakens + UNIT);
  }

  // ----- Arithmetic -----

  /** More support never lowers the ratio, more weakening evidence never raises it. */
  lemma RatioMonotone(s: nat, w: nat, s': nat, w': nat)
    requires s <= s' && w' <= w
    ensures Ratio(s, w) <= Ratio(s', w')
  {
    var d, d' := s + w + UNIT, s' + w' + UNIT;
    assert ONE * s * d' <= ONE * s' * d by {
      CrossMultiply(s, w + UNIT, s', w' + UNIT);
      assert ONE * s * d' == ONE * (s * d') && ONE * s' * d == ONE * (s' * d);
    }
    RoundMonotone(ONE * s, d, ONE * s', d');
  }

  lemma CrossMultiply(s: nat, u: nat, s': nat, u': nat)
    requires s <= s' && u' <= u
    ensures s * (s' + u') <= s' * (s + u)
  {
    Scale(s, s', u);
    Scale(u', u, s);
    assert s * (s' + u') == s * s' + s * u';
    assert s' * (s + u) == s' * s + s' * u;
  }

  lemma RatioWithinUnit(s: nat, w: nat)
    ensures Ratio(s, w) <= ONE
  {
    var d := s + w + UNIT;
    assert ONE * s * 1 <= ONE * d;
    RoundMonotone(ONE * s, d, ONE, 1);
  }

  /** Confidence is a number between 0 and 1. */
  lemma ConfidenceInUnit(links: seq<Link>, hypothesis: nat)
    ensures 0 <= ConfidenceOf(links, hypothesis) <= ONE
  {
    RatioWithinUnit(Weighted(links, hypothesis, Supports), Weighted(links, hypothesis, Weakens));
  }

  /** Storage order of the links does not matter. */
  lemma ConfidenceIgnoresOrder(links: seq<Link>, permuted: seq<Link>, hypothesis: nat)
    requires multiset(links) == multiset(permuted)
    ensures ConfidenceOf(links, hypothesis) == ConfidenceOf(permuted, hypothesis)
  {
    TotalPermutation(links, permuted, WeightIn(hypothesis, Supports));
    TotalPermutation(links, permuted, WeightIn(hypothesis, Weakens));
  }

  /** One more supporting link never lowers confidence; one more weakening link never raises it. */
  lemma ConfidenceMonotone(links: seq<Link>, link: Link, hypothesis: nat)
    requires link.hypothesis == hypothesis
    ensures link.relation == Supports ==> ConfidenceOf(links, hypothesis) <= ConfidenceOf(links + [link], hypothesis)
    ensures link.relation == Weakens ==> ConfidenceOf(links + [link], hypothesis) <= ConfidenceOf(links, hypothesis)
  {
    var more := links + [link];
    assert more[..|links|] == links;
    var s, w := Weighted(links, hypothesis, Supports), Weighted(links, hypothesis, Weakens);
    var s', w' := Weighted(more, hypothesis, Supports), Weighted(more, hypothesis, Weakens);
    if link.relation == Supports { RatioMonotone(s, w, s', w'); } else { RatioMonotone(s', w', s, w); }
  }

  function IsSupport(hypothesis: nat): Link -> bool {
    (l: Link) => l.hypothesis == hypothesis && l.relation == Supports
  }

  lemma {:induction false} SupportBound(links: seq<Link>, hypothesis: nat)
    requires forall i | 0 <= i < |links| :: links[i].weight <= UNIT
    ensures Weighted(links, hypothesis, Supports) <= UNIT * Count(links, IsSupport(hypothesis))
  {
    if links != [] {
      SupportBound(links[..|links| - 1], hypothesis);
    }
  }

  lemma FullSupport(n: nat)
    ensures Ratio(UNIT * n, 0) <= RoundHalfEven(ONE * n, n + 1)
  {
    var a, b := ONE * n, n + 1;
    assert ONE * (UNIT * n) == UNIT * a && UNIT * n + 0 + UNIT == UNIT * b;
    assert (UNIT * a) * b == a * (UNIT * b);
    RoundMonotone(UNIT * a, UNIT * b, a, b);
  }

  /** With n supporting links, of weight at most 1.0, confidence is at most n/(n+1). */
  lemma ConfidenceBoundedBySupportCount(links: seq<Link>, hypothesis: nat)
    requires forall i | 0 <= i < |links| :: links[i].weight <= UNIT
    ensures var n := Count(links, IsSupport(hypothesis));
            ConfidenceOf(links, hypothesis) <= RoundHalfEven(ONE * n, n + 1)
  {
    var n := Count(links, IsSupport(hypothesis));
    SupportBound(links, hypothesis);
    RatioMonotone(Weighted(links, hypothesis, Supports), Weighted(links, hypothesis, Weakens), UNIT * n, 0);
    FullSupport(n);
  }

  /** One supporting link never reaches the action threshold on its own, nor even exceeds one half. */
  lemma ThresholdNeedsTwoSupports(links: seq<Link>, hypothesis: nat)
    requires forall i | 0 <= i < |links| :: links[i].weight <= UNIT
    ensures Count(links, IsSupport(hypothesis)) <= 1 ==> ConfidenceOf(links, hypothesis) <= 5_000
    ensures ConfidenceOf(links, hypothesis) >= ACTION_THRESHOLD ==> Count(links, IsSupport(hypothesis)) >= 2
  {
    ConfidenceBoundedBySupportCount(links, hypothesis);
  }

  /** Two fully reliable supporting links and nothing against do reach it: the bound is tight. */
  lemma TwoReliableSupportsSuffice()
    ensures Ratio(2 * UNIT, 0) == 6_667 > ACTION_THRESHOLD
  {}

  /** Rounding included, exactly when the weights reach the action threshold. */
  lemma ThresholdExactly(supports: nat, weakens: nat)
    ensures Ratio(supports, weakens) >= ACTION_THRESHOLD <==> 20_000 * supports >= 11_999 * (supports + weakens + UNIT)
  {
    var a, b := ONE * supports, supports + weakens + UNIT;
    HalfWayUp(a, b, ACTION_THRESHOLD);
  }

  /** The same for exceeding one half. */
  lemma HalfExactly(supports: nat, weakens: nat)
    ensures Ratio(supports, weakens) > 5_000 <==> 20_000 * supports > 10_001 * (supports + weakens + UNIT)
  {
    HalfWayUp(ONE * supports, supports + weakens + UNIT, 5_001);
  }

  /**
   Two supporting links alone reach it unless both rows are soft, or one a web event and the other
   not transactional.
   */
  lemma WhichPairsSuffice(x: Source, y: Source)
    ensures Ratio(SourceWeight(x) + SourceWeight(y), 0) >= ACTION_THRESHOLD <==> SourceWeight(x) + SourceWeight(y) >= 15
    ensures SourceWeight(x) + SourceWeight(y) >= 15 <==>
              && !(x == WebAppEvent && SourceWeight(y) < UNIT) && !(y == WebAppEvent && SourceWeight(x) < UNIT)
              && !(x == ContactCenterRecord && y == ContactCenterRecord)
  {
    ThresholdExactly(SourceWeight(x) + SourceWeight(y), 0);
  }
}
