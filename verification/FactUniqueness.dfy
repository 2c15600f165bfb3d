/**
 When each fact has one current row: the exact conditions, on the call about to be made and on
 the list of deliveries, whatever rows the ingestion query answers with.
 */
module FactUniqueness {
  import opened Domain
  import opened Sequences
  import opened EvidenceStore

  // ----- One call -----

  /** With one current fact for its key, a delivery keeps it one unless it corrects a repeat. */
  lemma OneCurrentFactStaysIff(rows: seq<Evidence>, d: Delivery)
    requires Count(rows, CurrentFact(d.key)) == 1
    ensures Hit(rows, d).Some?
    ensures var hit := rows[Hit(rows, d).value];
            Count(Ingested(rows, d), CurrentFact(d.key)) == 1 <==> !(hit.duplicateOf.Some? && hit.payload != d.payload)
  {
    CountZero(rows, CurrentFact(d.key));
    IngestCounts(rows, d, CurrentFact(d.key));
  }

  /** With one row for its key that is not superseded, a delivery keeps it one unless it is an exact repeat. */
  lemma OneRowStaysIff(rows: seq<Evidence>, d: Delivery)
    requires Count(rows, Matching(d.key)) == 1
    ensures Hit(rows, d).Some?
    ensures Count(Ingested(rows, d), Matching(d.key)) == 1 <==> rows[Hit(rows, d).value].payload != d.payload
  {
    CountZero(rows, Matching(d.key));
    IngestCounts(rows, d, Matching(d.key));
  }

  // ----- The list of deliveries -----

  /** What was delivered under a key, oldest first. */
  function Payloads(ds: seq<Delivery>, key: EvidenceKey): seq<Payload> {
    if ds == [] then []
    else
      var d := ds[|ds| - 1];
      Payloads(ds[..|ds| - 1], key) + if d.key == key then [d.payload] else []
  }

  predicate RepeatAt(payloads: seq<Payload>, i: nat) {
    1 <= i < |payloads| && payloads[i] == payloads[i - 1]
  }

  ghost predicate Repeats(payloads: seq<Payload>) {
    exists i: nat :: RepeatAt(payloads, i)
  }

  /** Once a payload has been repeated, no other follows. */
  ghost predicate Steady(payloads: seq<Payload>) {
    forall i: nat, j | RepeatAt(payloads, i) && i < j < |payloads| :: payloads[j] == payloads[i]
  }

  lemma AppendPayload(payloads: seq<Payload>, p: Payload)
    ensures Repeats(payloads + [p]) <==> Repeats(payloads) || (payloads != [] && payloads[|payloads| - 1] == p)
    ensures Repeats(payloads) ==> payloads != []
    ensures Steady(payloads + [p]) <==>
            Steady(payloads) && (Repeats(payloads) ==> payloads[|payloads| - 1] == p)
  {
    hide Steady, Repeats;
    AppendRepeats(payloads, p);
    if Steady(payloads) && (Repeats(payloads) ==> payloads[|payloads| - 1] == p) {
      SteadyAfter(payloads, p);
    }
    if Steady(payloads + [p]) {
      SteadyBefore(payloads, p);
    }
  }

  lemma AppendRepeats(payloads: seq<Payload>, p: Payload)
    ensures Repeats(payloads + [p]) <==> Repeats(payloads) || (payloads != [] && payloads[|payloads| - 1] == p)
    ensures Repeats(payloads) ==> payloads != []
  {
    var n, more := |payloads|, payloads + [p];
    if n > 0 && payloads[n - 1] == p {
      assert RepeatAt(more, n);
    }
    if i: nat :| RepeatAt(payloads, i) {
      assert RepeatAt(more, i);
    }
    if i: nat :| RepeatAt(more, i) && i < n {
      assert RepeatAt(payloads, i);
    }
  }

  lemma SteadyAfter(payloads: seq<Payload>, p: Payload)
    requires Steady(payloads) && (Repeats(payloads) ==> payloads != [] && payloads[|payloads| - 1] == p)
    ensures Steady(payloads + [p])
  {
    var n, more := |payloads|, payloads + [p];
    forall i: nat, j | RepeatAt(more, i) && i < j < |more| ensures more[j] == more[i] {
      assert RepeatAt(payloads, i);
      assert i < n - 1 ==> payloads[n - 1] == payloads[i];
    }
  }

  lemma SteadyBefore(payloads: seq<Payload>, p: Payload)
    requires Steady(payloads + [p])
    ensures Steady(payloads) && (Repeats(payloads) ==> payloads[|payloads| - 1] == p)
  {
    var n, more := |payloads|, payloads + [p];
    forall i: nat, j | RepeatAt(payloads, i) && i < j < n ensures payloads[j] == payloads[i] {
      assert RepeatAt(more, i) && more[j] == more[i];
    }
    if i: nat :| RepeatAt(payloads, i) {
      assert RepeatAt(more, i) && more[n] == more[i];
      assert n - 1 > i ==> more[n - 1] == more[i];
    }
  }

  /** What the rows of a key look like as long as its payloads are steady. */
  ghost predicate Tidy(rows: seq<Evidence>, key: EvidenceKey, payloads: seq<Payload>) {
    && (payloads == [] <==> forall i | 0 <= i < |rows| :: !Matching(key)(rows[i]))
    && (forall i | 0 <= i < |rows| && Matching(key)(rows[i]) ::
      payloads != [] && rows[i].payload == payloads[|payloads| - 1])
    && (forall i | 0 <= i < |rows| :: !SupersededDuplicate(key)(rows[i]))
    && (!Repeats(payloads) ==> forall i, j | 0 <= i < j < |rows| && Matching(key)(rows[i]) :: !Matching(key)(rows[j]))
    && (!Repeats(payloads) ==> forall i | 0 <= i < |rows| :: !AnyDuplicate(key)(rows[i]))
  }

  lemma StepIsTidy(rows: seq<Evidence>, d: Delivery, payloads: seq<Payload>)
    requires Tidy(rows, d.key, payloads) && Steady(payloads + [d.payload])
    ensures Tidy(Ingested(rows, d), d.key, payloads + [d.payload])
  {
    hide Steady, Repeats;
    var after, more, n := Ingested(rows, d), payloads + [d.payload], |rows|;
    AppendPayload(payloads, d.payload);
    assert more[|more| - 1] == d.payload;
    assert Matching(d.key)(after[n]);
  }

  lemma OtherKeyIsTidy(rows: seq<Evidence>, d: Delivery, key: EvidenceKey, payloads: seq<Payload>)
    requires Tidy(rows, key, payloads) && d.key != key
    ensures Tidy(Ingested(rows, d), key, payloads)
  {
    hide Ingested, Hit;
    IngestGrows(rows, d);
    OtherRowsStay(rows, d, key, Ingested(rows, d));
  }

  lemma OtherRowsStay(rows: seq<Evidence>, d: Delivery, key: EvidenceKey, after: seq<Evidence>)
    requires Grows(rows, d, after) && d.key != key
    ensures forall i | 0 <= i < |after| :: after[i].key == key ==> i < |rows| && after[i] == rows[i]
    ensures forall i | 0 <= i < |rows| :: rows[i].key == key ==> after[i] == rows[i]
  {}

  lemma {:induction false} SteadyIsTidy(ds: seq<Delivery>, key: EvidenceKey)
    requires Steady(Payloads(ds, key))
    ensures Tidy(Stored(ds), key, Payloads(ds, key))
  {
    hide Tidy, Steady, Ingested, Repeats;
    if ds == [] {
      NothingIsTidy(key);
    } else {
      var rest, d := ds[..|ds| - 1], ds[|ds| - 1];
      if d.key == key {
        AppendPayload(Payloads(rest, key), d.payload);
        SteadyIsTidy(rest, key);
        StepIsTidy(Stored(rest), d, Payloads(rest, key));
      } else {
        assert Payloads(ds, key) == Payloads(rest, key);
        SteadyIsTidy(rest, key);
        OtherKeyIsTidy(Stored(rest), d, key, Payloads(rest, key));
      }
    }
  }

  lemma NothingIsTidy(key: EvidenceKey)
    ensures Tidy([], key, [])
  {}

  // ----- A repeat leaves a duplicate for good -----

  lemma MarksStay(rows: seq<Evidence>, d: Delivery, key: EvidenceKey, i: nat)
    requires i < |rows|
    ensures i < |Ingested(rows, d)|
    ensures AnyDuplicate(key)(rows[i]) ==> AnyDuplicate(key)(Ingested(rows, d)[i])
    ensures SupersededDuplicate(key)(rows[i]) ==> SupersededDuplicate(key)(Ingested(rows, d)[i])
  {}

  lemma {:induction false} RepeatLeavesDuplicate(ds: seq<Delivery>, key: EvidenceKey)
    requires Repeats(Payloads(ds, key))
    ensures exists i :: 0 <= i < |Stored(ds)| && AnyDuplicate(key)(Stored(ds)[i])
  {
    hide Steady, Ingested, Repeats;
    NoPayloads();
    var rest, d := ds[..|ds| - 1], ds[|ds| - 1];
    var before := Payloads(rest, key);
    if Repeats(before) {
      RepeatLeavesDuplicate(rest, key);
      var i :| 0 <= i < |Stored(rest)| && AnyDuplicate(key)(Stored(rest)[i]);
      MarksStay(Stored(rest), d, key, i);
      assert AnyDuplicate(key)(Stored(ds)[i]);
    } else {
      assert d.key == key by { assert d.key != key ==> Payloads(ds, key) == before; }
      AppendPayload(before, d.payload);
      UnrepeatedIsSteady(before);
      SteadyIsTidy(rest, key);
      RepeatIsMarked(Stored(rest), d, before);
      assert AnyDuplicate(key)(Stored(ds)[|Stored(rest)|]);
    }
  }

  lemma UnrepeatedIsSteady(payloads: seq<Payload>)
    requires !Repeats(payloads)
    ensures Steady(payloads)
  {}

  lemma RepeatIsMarked(rows: seq<Evidence>, d: Delivery, payloads: seq<Payload>)
    requires Tidy(rows, d.key, payloads) && payloads != [] && payloads[|payloads| - 1] == d.payload
    ensures |Ingested(rows, d)| == |rows| + 1 && AnyDuplicate(d.key)(Ingested(rows, d)[|rows|])
  {}

  // ----- Uniqueness over every storage order -----

  /** The same deliveries, with the query answering otherwise. */
  predicate SameDeliveries(ds: seq<Delivery>, other: seq<Delivery>) {
    |ds| == |other| && forall i | 0 <= i < |ds| :: other[i] == ds[i].(scan := other[i].scan)
  }

  lemma {:induction false} SamePayloads(ds: seq<Delivery>, other: seq<Delivery>, key: EvidenceKey)
    requires SameDeliveries(ds, other)
    ensures Payloads(ds, key) == Payloads(other, key)
  {
    if ds != [] {
      SamePayloads(ds[..|ds| - 1], other[..|ds| - 1], key);
    }
  }

  /** A correction that follows a repeat supersedes the duplicate, under some storage order. */
  lemma CorrectionCanHitDuplicate(rows: seq<Evidence>, d: Delivery, payloads: seq<Payload>, k: nat)
    requires Tidy(rows, d.key, payloads) && k < |rows| && AnyDuplicate(d.key)(rows[k])
    requires payloads != [] && payloads[|payloads| - 1] != d.payload
    ensures exists scan: nat ::
              k < |Ingested(rows, d.(scan := scan))| && SupersededDuplicate(d.key)(Ingested(rows, d.(scan := scan))[k])
  {
    assert Matching(d.key)(rows[k]);
    var hits := Where(rows, Matching(d.key));
    AnyRowCanBeReturned(hits, k);
    var scan: nat :| AnyOf(hits, scan) == k;
    assert Hit(rows, d.(scan := scan)) == Some(k);
    assert SupersededDuplicate(d.key)(Ingested(rows, d.(scan := scan))[k]);
  }

  lemma {:induction false} UnsteadyCanFail(ds: seq<Delivery>, key: EvidenceKey)
    requires !Steady(Payloads(ds, key))
    ensures exists other: seq<Delivery>, k :: SameDeliveries(ds, other)
              && 0 <= k < |Stored(other)| && SupersededDuplicate(key)(Stored(other)[k])
  {
    hide Steady, Repeats, Ingested, Tidy;
    NoPayloads();
    var rest, d := ds[..|ds| - 1], ds[|ds| - 1];
    if !Steady(Payloads(rest, key)) {
      UnsteadyCanFail(rest, key);
      var other: seq<Delivery>, k :|
        SameDeliveries(rest, other) && 0 <= k < |Stored(other)| && SupersededDuplicate(key)(Stored(other)[k]);
      StoredSnoc(other, d);
      MarksStay(Stored(other), d, key, k);
      assert SameDeliveries(ds, other + [d]);
    } else {
      assert d.key == key by { assert d.key != key ==> Payloads(ds, key) == Payloads(rest, key); }
      AppendPayload(Payloads(rest, key), d.payload);
      SteadyIsTidy(rest, key);
      RepeatLeavesDuplicate(rest, key);
      var k :| 0 <= k < |Stored(rest)| && AnyDuplicate(key)(Stored(rest)[k]);
      CorrectionCanHitDuplicate(Stored(rest), d, Payloads(rest, key), k);
      var scan: nat :| k < |Ingested(Stored(rest), d.(scan := scan))|
        && SupersededDuplicate(key)(Ingested(Stored(rest), d.(scan := scan))[k]);
      StoredSnoc(rest, d.(scan := scan));
      assert SameDeliveries(ds, rest + [d.(scan := scan)]);
    }
  }

  lemma NoPayloads()
    ensures !Repeats([]) && Steady([])
  {}

  lemma StoredSnoc(ds: seq<Delivery>, d: Delivery)
    ensures Stored(ds + [d]) == Ingested(Stored(ds), d)
  {
    assert (ds + [d])[..|ds|] == ds;
  }

  ghost predicate UniqueFact(ds: seq<Delivery>, key: EvidenceKey) {
    Count(Stored(ds), CurrentFact(key)) == 1
  }

  /**
   The table's intended uniqueness holds for an ingested key under every storage order if and only
   if no different payload follows an exact repeat.
   */
  lemma UniqueFactIffSteady(ds: seq<Delivery>, key: EvidenceKey)
    requires exists i :: 0 <= i < |ds| && ds[i].key == key
    ensures (forall other: seq<Delivery> | SameDeliveries(ds, other) :: UniqueFact(other, key)) <==>
            Steady(Payloads(ds, key))
  {
    hide Steady, Stored, Payloads;
    var i :| 0 <= i < |ds| && ds[i].key == key;
    if Steady(Payloads(ds, key)) {
      forall other: seq<Delivery> | SameDeliveries(ds, other) ensures UniqueFact(other, key) {
        assert other[i].key == key;
        SamePayloads(ds, other, key);
        SteadyIsTidy(other, key);
        UniqueFactIffNoDuplicateCorrected(other, key);
      }
    } else {
      UnsteadyCanFail(ds, key);
      var other: seq<Delivery>, k :|
        SameDeliveries(ds, other) && 0 <= k < |Stored(other)| && SupersededDuplicate(key)(Stored(other)[k]);
      assert other[i].key == key;
      UniqueFactIffNoDuplicateCorrected(other, key);
    }
  }

  /** One row that is not superseded, duplicates counted, is what remains if and only if nothing was repeated. */
  lemma OneRowIffNothingRepeated(ds: seq<Delivery>, key: EvidenceKey)
    requires exists i :: 0 <= i < |ds| && ds[i].key == key
    ensures Count(Stored(ds), Matching(key)) == 1 <==> !Repeats(Payloads(ds, key))
  {
    hide Steady, Stored, Repeats, Payloads;
    UniqueFactIffNoDuplicateCorrected(ds, key);
    if Repeats(Payloads(ds, key)) {
      RepeatLeavesDuplicate(ds, key);
    } else {
      UnrepeatedIsSteady(Payloads(ds, key));
      SteadyIsTidy(ds, key);
    }
  }
}
