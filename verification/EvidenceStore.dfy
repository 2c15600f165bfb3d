/**
 The versioned evidence table: new fact, exact repeat (duplicate) or correction, decided
 against whichever non-superseded row with the same key the query returns.
 */
module EvidenceStore {
  import opened Domain
  import opened Sequences

  /** The ingestion query: non-superseded rows with this key, duplicates included. */
  function Matching(key: EvidenceKey): Evidence -> bool {
    (e: Evidence) => e.key == key && !e.superseded
  }

  function NewRow(d: Delivery): Evidence {
    Evidence(d.customer, d.order, d.key, d.occurredAt, d.payload, None, false, None)
  }

  /** The row the query answers with, if any. */
  function Hit(rows: seq<Evidence>, d: Delivery): (r: Option<nat>)
    ensures r.Some? ==> r.value < |rows| && rows[r.value].key == d.key && !rows[r.value].superseded
    ensures r.None? ==> forall i | 0 <= i < |rows| && rows[i].key == d.key :: rows[i].superseded
  {
    var hits := Where(rows, Matching(d.key));
    if hits == [] then
      assert forall i | 0 <= i < |rows| :: i !in hits;
      None
    else Some(AnyOf(hits, d.scan))
  }

  /** The table after one delivery. */
  function Ingested(rows: seq<Evidence>, d: Delivery): seq<Evidence> {
    match Hit(rows, d)
    case None => rows + [NewRow(d)]
    case Some(hit) =>
      if rows[hit].payload == d.payload then
        rows + [NewRow(d).(duplicateOf := Some(hit))]
      else
        rows[hit := rows[hit].(superseded := true)] + [NewRow(d).(supersedes := Some(hit))]
  }

  /** The table after a list of deliveries, oldest first. */
  function Stored(ds: seq<Delivery>): seq<Evidence> {
    if ds == [] then [] else Ingested(Stored(ds[..|ds| - 1]), ds[|ds| - 1])
  }

  /** The row states what was delivered. */
  predicate Tells(e: Evidence, d: Delivery) {
    && e.customer == d.customer
    && e.order == d.order
    && e.key == d.key
    && e.occurredAt == d.occurredAt
    && e.payload == d.payload
  }

  /**
   What one delivery does: it appends one row stating `d`, new exactly if no row of its key is left that
   is not superseded, else a repeat or a correction of one of those, and marks only the row it corrects.
   */
  ghost predicate Grows(rows: seq<Evidence>, d: Delivery, after: seq<Evidence>) {
    var n := |rows|;
    && |after| == n + 1
    && Tells(after[n], d) && !after[n].superseded
    && (forall i | 0 <= i < n :: after[i] == if after[n].supersedes == Some(i) then rows[i].(superseded := true)
      else rows[i])
    && (after[n].supersedes.Some? ==>
          && after[n].supersedes.value < n
          && rows[after[n].supersedes.value].key == d.key && !rows[after[n].supersedes.value].superseded
          && rows[after[n].supersedes.value].payload != d.payload
          && after[n].duplicateOf.None?)
    && (after[n].duplicateOf.Some? ==>
          && after[n].duplicateOf.value < n
          && rows[after[n].duplicateOf.value].key == d.key && !rows[after[n].duplicateOf.value].superseded
          && rows[after[n].duplicateOf.value].payload == d.payload)
    && (after[n].supersedes.None? && after[n].duplicateOf.None? <==>
          forall i | 0 <= i < n && rows[i].key == d.key :: rows[i].superseded)
  }

  lemma IngestGrows(rows: seq<Evidence>, d: Delivery)
    ensures Grows(rows, d, Ingested(rows, d))
  {}

  // ----- Version chains -----

  /** A later row names this one as its predecessor. */
  ghost predicate Corrected(rows: seq<Evidence>, i: nat) {
    exists j :: i < j < |rows| && rows[j].supersedes == Some(i)
  }

  /** References point back, within one key; a repeat has its original's payload, a correction another. */
  ghost predicate PointsBack(rows: seq<Evidence>, j: nat)
    requires j < |rows|
  {
    && (rows[j].supersedes.Some? ==>
          && rows[j].supersedes.value < j
          && rows[rows[j].supersedes.value].key == rows[j].key
          && rows[rows[j].supersedes.value].payload != rows[j].payload
          && rows[j].duplicateOf.None?)
    && (rows[j].duplicateOf.Some? ==>
          && rows[j].duplicateOf.value < j
          && rows[rows[j].duplicateOf.value].key == rows[j].key
          && rows[rows[j].duplicateOf.value].payload == rows[j].payload)
  }

  /**
   Version chains are linear, acyclic and stay within one key: a row is superseded exactly
   when a later row names it, and then only one does.
   */
  ghost predicate Chained(rows: seq<Evidence>) {
    && (forall j | 0 <= j < |rows| :: PointsBack(rows, j))
    && (forall j, k | 0 <= j < k < |rows| :: rows[j].supersedes.Some? ==> rows[j].supersedes != rows[k].supersedes)
    && (forall i | 0 <= i < |rows| :: rows[i].superseded <==> Corrected(rows, i))
  }

  lemma IngestKeepsChains(rows: seq<Evidence>, d: Delivery)
    requires Chained(rows)
    ensures Chained(Ingested(rows, d))
  {
    IngestGrows(rows, d);
    GrowthKeepsChains(rows, d, Ingested(rows, d));
  }

  lemma GrowthKeepsChains(rows: seq<Evidence>, d: Delivery, after: seq<Evidence>)
    requires Chained(rows) && Grows(rows, d, after)
    ensures Chained(after)
  {
    var n := |rows|;
    forall j | 0 <= j < |after| ensures PointsBack(after, j) {
      if j < n { assert PointsBack(rows, j); }
    }
    forall i | 0 <= i < |after| ensures after[i].superseded <==> Corrected(after, i) {
      if i < n {
        if Corrected(rows, i) {
          var j :| i < j < n && rows[j].supersedes == Some(i);
          assert after[j].supersedes == Some(i);
        } else if Corrected(after, i) {
          var j :| i < j < |after| && after[j].supersedes == Some(i);
        } else {
          assert after[n].supersedes != Some(i);
        }
      }
    }
    forall j | 0 <= j < n && rows[j].supersedes.Some? ensures rows[j].supersedes != after[n].supersedes {
      assert PointsBack(rows, j);
      assert Corrected(rows, rows[j].supersedes.value);
    }
  }

  // ----- Conservation -----

  /** A current fact for a key: not superseded and not a mere repeat. */
  function CurrentFact(key: EvidenceKey): Evidence -> bool {
    (e: Evidence) => e.key == key && !e.superseded && e.duplicateOf.None?
  }

  function SupersededDuplicate(key: EvidenceKey): Evidence -> bool {
    (e: Evidence) => e.key == key && e.superseded && e.duplicateOf.Some?
  }

  function AnyDuplicate(key: EvidenceKey): Evidence -> bool {
    (e: Evidence) => e.key == key && e.duplicateOf.Some?
  }

  function WithKey(key: EvidenceKey): Evidence -> bool {
    (e: Evidence) => e.key == key
  }

  /** Per key: facts == 1 + superseded duplicates, and non-superseded rows == 1 + duplicates. */
  ghost predicate Conserved(rows: seq<Evidence>, key: EvidenceKey) {
    var ingested := if Count(rows, WithKey(key)) == 0 then 0 else 1;
    && Count(rows, CurrentFact(key)) == ingested + Count(rows, SupersededDuplicate(key))
    && Count(rows, Matching(key)) == ingested + Count(rows, AnyDuplicate(key))
  }

  /** How one delivery moves the count of rows of any one sort. */
  lemma IngestCounts(rows: seq<Evidence>, d: Delivery, p: Evidence -> bool)
    ensures var after, n := Ingested(rows, d), |rows|;
            match Hit(rows, d)
            case None =>
              Count(after, p) == Count(rows, p) + if p(after[n]) then 1 else 0
            case Some(hit) =>
              Count(after, p) + (if p(rows[hit]) then 1 else 0)
              == Count(rows, p) + (if p(after[hit]) then 1 else 0) + if p(after[n]) then 1 else 0
  {
    hide Hit;
    var after, n := Ingested(rows, d), |rows|;
    CountAppend(after[..n], after[n], p);
    assert after == after[..n] + [after[n]];
    var hit := Hit(rows, d);
    if hit.Some? {
      CountUpdate(rows, hit.value, after[hit.value], p);
      assert after[..n] == rows[hit.value := after[hit.value]];
    } else {
      assert after[..n] == rows;
    }
  }

  lemma IngestConserves(rows: seq<Evidence>, d: Delivery, key: EvidenceKey)
    requires Conserved(rows, key)
    ensures Conserved(Ingested(rows, d), key)
  {
    IngestCounts(rows, d, WithKey(key));
    IngestCounts(rows, d, CurrentFact(key));
    IngestCounts(rows, d, SupersededDuplicate(key));
    IngestCounts(rows, d, Matching(key));
    IngestCounts(rows, d, AnyDuplicate(key));
    if d.key == key {
      CountZero(rows, WithKey(key));
      var hit := Hit(rows, d);
      if hit.None? {
        CountZero(rows, Matching(key));
      }
    }
  }

  lemma {:induction false} StoreInvariants(ds: seq<Delivery>, key: EvidenceKey)
    ensures Chained(Stored(ds)) && Conserved(Stored(ds), key)
  {
    if ds != [] {
      StoreInvariants(ds[..|ds| - 1], key);
      IngestKeepsChains(Stored(ds[..|ds| - 1]), ds[|ds| - 1]);
      IngestConserves(Stored(ds[..|ds| - 1]), ds[|ds| - 1], key);
    }
  }

  /** Every call adds exactly one row, and past rows keep everything but the superseded mark. */
  lemma {:induction false} OneRowPerDelivery(ds: seq<Delivery>)
    ensures |Stored(ds)| == |ds|
    ensures forall i | 0 <= i < |ds| ::
              var row, d := Stored(ds)[i], ds[i];
              && row.customer == d.customer
              && row.order == d.order
              && row.key == d.key
              && row.occurredAt == d.occurredAt
              && row.payload == d.payload
  {
    if ds != [] {
      var n := |ds| - 1;
      OneRowPerDelivery(ds[..n]);
      RowsMatch(Stored(ds[..n]), ds, Stored(ds));
    }
  }

  lemma RowsMatch(rows: seq<Evidence>, ds: seq<Delivery>, after: seq<Evidence>)
    requires |ds| == |rows| + 1 && after == Ingested(rows, ds[|rows|])
    requires forall i | 0 <= i < |rows| :: Tells(rows[i], ds[..|rows|][i])
    ensures |after| == |ds| && forall i | 0 <= i < |ds| :: Tells(after[i], ds[i])
  {
    IngestGrows(rows, ds[|rows|]);
    forall i | 0 <= i < |rows| ensures Tells(after[i], ds[i]) {
      assert ds[..|rows|][i] == ds[i];
    }
  }

  /**
   The table's intended uniqueness, one current fact per key, holds for an ingested key
   exactly as long as no duplicate row has been the one that a correction superseded.
   */
  lemma UniqueFactIffNoDuplicateCorrected(ds: seq<Delivery>, key: EvidenceKey)
    requires exists i | 0 <= i < |ds| :: ds[i].key == key
    ensures var rows := Stored(ds);
            && Count(rows, CurrentFact(key)) == 1 + Count(rows, SupersededDuplicate(key))
            && (Count(rows, CurrentFact(key)) == 1 <==>
                forall i | 0 <= i < |rows| && rows[i].key == key && rows[i].duplicateOf.Some? :: !rows[i].superseded)
            && (Count(rows, Matching(key)) == 1 <==>
                forall i | 0 <= i < |rows| && rows[i].key == key :: rows[i].duplicateOf.None?)
  {
    hide Stored, Chained;
    var rows := Stored(ds);
    StoreInvariants(ds, key);
    OneRowPerDelivery(ds);
    var i :| 0 <= i < |ds| && ds[i].key == key;
    assert WithKey(key)(rows[i]);
    CountZero(rows, WithKey(key));
    CountZero(rows, SupersededDuplicate(key));
    CountZero(rows, AnyDuplicate(key));
  }

  /** Uniqueness does fail: a fact, its repeat, then a correction that hits the repeat. */
  lemma TwoCurrentFactsForOneKey(fact: Delivery, fix: Delivery)
    requires fix.key == fact.key && fix.payload != fact.payload && fix.scan == 1
    ensures Count(Stored([fact, fact, fix]), CurrentFact(fact.key)) == 2
  {
    FactThenRepeat(fact);
    CorrectionHitsRepeat(fact, fix);
    StoredOfThree(fact, fact, fix);
  }

  lemma StoredOfThree(a: Delivery, b: Delivery, c: Delivery)
    ensures Stored([a, b, c]) == Ingested(Ingested(Ingested([], a), b), c)
  {
    assert [a, b, c][..2] == [a, b] && [a, b][..1] == [a] && [a][..0] == [];
    assert Stored([a]) == Ingested([], a);
    assert Stored([a, b]) == Ingested(Stored([a]), b);
  }

  lemma FactThenRepeat(fact: Delivery)
    ensures Ingested([], fact) == [NewRow(fact)]
    ensures Ingested([NewRow(fact)], fact) == [NewRow(fact), NewRow(fact).(duplicateOf := Some(0))]
  {
    WhereOne([NewRow(fact)], Matching(fact.key));
  }

  lemma CorrectionHitsRepeat(fact: Delivery, fix: Delivery)
    requires fix.key == fact.key && fix.payload != fact.payload && fix.scan == 1
    ensures Count(Ingested([NewRow(fact), NewRow(fact).(duplicateOf := Some(0))], fix), CurrentFact(fact.key)) == 2
  {
    var rows := [NewRow(fact), NewRow(fact).(duplicateOf := Some(0))];
    var p := CurrentFact(fact.key);
    WhereTwo(rows, Matching(fact.key));
    CountOne(rows[..1], p);
    CountAppend(rows[..1], rows[1], p);
    assert rows[..1] + [rows[1]] == rows;
    IngestCounts(rows, fix, p);
  }

  lemma CountOne(rows: seq<Evidence>, p: Evidence -> bool)
    requires |rows| == 1
    ensures Count(rows, p) == if p(rows[0]) then 1 else 0
  {
    CountAppend([], rows[0], p);
    assert [] + [rows[0]] == rows;
  }

  lemma WhereOne(rows: seq<Evidence>, p: Evidence -> bool)
    requires |rows| == 1 && p(rows[0])
    ensures Where(rows, p) == [0]
  {
    assert rows[..0] == [];
  }

  lemma WhereTwo(rows: seq<Evidence>, p: Evidence -> bool)
    requires |rows| == 2 && p(rows[0]) && p(rows[1])
    ensures Where(rows, p) == [0, 1]
  {
    WhereOne(rows[..1], p);
  }
}
