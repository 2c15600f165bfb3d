/** The canonical timeline: one event per current evidence row, carried along corrections. */
module Timeline {
  import opened Domain
  import opened Sequences
  import opened EvidenceStore

  datatype CanonicalEvent = CanonicalEvent(evidence: nat, effectiveAt: int, source: Source)

  function Retarget(ev: CanonicalEvent, rows: seq<Evidence>, id: nat): CanonicalEvent
    requires id < |rows|
  {
    ev.(evidence := id, effectiveAt := rows[id].occurredAt)
  }

  function NewEvent(rows: seq<Evidence>, id: nat): CanonicalEvent
    requires id < |rows|
  {
    CanonicalEvent(id, rows[id].occurredAt, rows[id].key.source)
  }

  predicate Current(rows: seq<Evidence>, customer: nat, id: nat) {
    id < |rows| && IsCurrentFor(rows[id], customer)
  }

  /** The ids the evidence query returns: each current row once, by time; ties in any order. */
  ghost predicate Lists(rows: seq<Evidence>, customer: nat, ids: seq<nat>) {
    && NoDuplicates(ids)
    && (forall id: nat :: id in ids <==> Current(rows, customer, id))
    && (forall i | 0 <= i < |ids| :: ids[i] < |rows|)
    && (forall i, j | 0 <= i < j < |ids| :: rows[ids[i]].occurredAt <= rows[ids[j]].occurredAt)
  }

  /** A row is covered by an event pointing at it or at the row it corrects. */
  predicate Claims(rows: seq<Evidence>, id: nat, ev: CanonicalEvent) {
    id < |rows| && (ev.evidence == id || rows[id].supersedes == Some(ev.evidence))
  }

  ghost predicate Covered(rows: seq<Evidence>, events: seq<CanonicalEvent>, id: nat) {
    exists e :: 0 <= e < |events| && Claims(rows, id, events[e])
  }

  /** An event tells the time and the source of the row it points at. */
  predicate Depicts(ev: CanonicalEvent, rows: seq<Evidence>) {
    && ev.evidence < |rows|
    && ev.effectiveAt == rows[ev.evidence].occurredAt
    && ev.source == rows[ev.evidence].key.source
  }

  /** What every event table reached by ingesting and assembling satisfies. */
  ghost predicate WellKept(rows: seq<Evidence>, events: seq<CanonicalEvent>) {
    && Chained(rows)
    && (forall e | 0 <= e < |events| :: Depicts(events[e], rows))
    && (forall e, f | 0 <= e < f < |events| :: events[e].evidence != events[f].evidence)
    && (forall e, f | 0 <= e < |events| && 0 <= f < |events| ::
          rows[events[e].evidence].supersedes != Some(events[f].evidence))
  }

  /** The correction of a row, if there is one: chains are linear, so it is unique. */
  function Successor(rows: seq<Evidence>, id: nat): Option<nat> {
    First(rows, (e: Evidence) => e.supersedes == Some(id))
  }

  /** What assembling does to an event already stored. */
  function Refreshed(rows: seq<Evidence>, customer: nat, ev: CanonicalEvent): CanonicalEvent {
    var next := Successor(rows, ev.evidence);
    if Current(rows, customer, ev.evidence) then Retarget(ev, rows, ev.evidence)
    else if next.Some? && Current(rows, customer, next.value) then Retarget(ev, rows, next.value)
    else ev
  }

  /** Assembling: stored events follow at most one correction, uncovered rows get a new event. */
  ghost predicate Assembles(
    rows: seq<Evidence>, customer: nat, events: seq<CanonicalEvent>, added: seq<nat>, after: seq<CanonicalEvent>)
  {
    && |after| == |events| + |added|
    && NoDuplicates(added)
    && (forall id: nat :: id in added <==> Current(rows, customer, id) && !Covered(rows, events, id))
    && (forall e | 0 <= e < |events| :: after[e] == Refreshed(rows, customer, events[e]))
    && (forall k | 0 <= k < |added| ::
      Current(rows, customer, added[k]) && after[|events| + k] == NewEvent(rows, added[k]))
  }

  /** The timeline handed back: events of the current rows in order of time. */
  ghost predicate IsTimeline(rows: seq<Evidence>, ids: seq<nat>, after: seq<CanonicalEvent>, timeline: seq<nat>) {
    && |timeline| == |ids|
    && (forall k | 0 <= k < |ids| ::
          && timeline[k] < |after|
          && after[timeline[k]].evidence == ids[k] < |rows|
          && after[timeline[k]].effectiveAt == rows[ids[k]].occurredAt)
  }

  lemma SuccessorIs(rows: seq<Evidence>, id: nat, next: nat)
    requires Chained(rows) && next < |rows| && rows[next].supersedes == Some(id)
    ensures Successor(rows, id) == Some(next)
    ensures id < |rows| && rows[id].superseded
  {
    var r := Successor(rows, id);
    assert PointsBack(rows, next);
    assert Corrected(rows, id);
  }

  /** A current row that claims a stored event is the one the event is refreshed to. */
  lemma ClaimRefreshes(rows: seq<Evidence>, customer: nat, ev: CanonicalEvent, id: nat)
    requires Chained(rows) && Current(rows, customer, id) && Claims(rows, id, ev)
    ensures Refreshed(rows, customer, ev) == Retarget(ev, rows, id)
  {
    if ev.evidence != id {
      SuccessorIs(rows, ev.evidence, id);
    }
  }

  /** Each stored event is claimed by at most one current row. */
  lemma ClaimUnique(rows: seq<Evidence>, customer: nat, ev: CanonicalEvent, id: nat, other: nat)
    requires Chained(rows) && Current(rows, customer, id) && Current(rows, customer, other)
    requires Claims(rows, id, ev) && Claims(rows, other, ev)
    ensures id == other
  {
    ClaimRefreshes(rows, customer, ev, id);
    ClaimRefreshes(rows, customer, ev, other);
  }

  method IndexByEvidence(events: seq<CanonicalEvent>) returns (byEvidence: map<nat, nat>)
    ensures forall x :: x in byEvidence <==> exists e :: 0 <= e < |events| && events[e].evidence == x
    ensures forall x | x in byEvidence :: byEvidence[x] < |events| && events[byEvidence[x]].evidence == x
  {
    byEvidence := map[];
    for e := 0 to |events|
      invariant forall x :: x in byEvidence <==> exists f :: 0 <= f < e && events[f].evidence == x
      invariant forall x | x in byEvidence :: byEvidence[x] < e && events[byEvidence[x]].evidence == x
    {
      byEvidence := byEvidence[events[e].evidence := e];
    }
  }

  /** The evidence ids handled so far, and what they have done to the event table. */
  ghost predicate Partial(
    rows: seq<Evidence>, customer: nat, events: seq<CanonicalEvent>,
    done: seq<nat>, after: seq<CanonicalEvent>, timeline: seq<nat>, added: seq<nat>)
  {
    && |after| == |events| + |added|
    && NoDuplicates(added)
    && (forall id :: id in added <==> id in done && !Covered(rows, events, id))
    && (forall e | 0 <= e < |events| ::
          after[e] == if ClaimedBy(rows, done, events[e]) then Refreshed(rows, customer, events[e]) else events[e])
    && (forall k | 0 <= k < |added| :: added[k] < |rows| && after[|events| + k] == NewEvent(rows, added[k]))
    && IsTimeline(rows, done, after, timeline)
  }

  ghost predicate ClaimedBy(rows: seq<Evidence>, done: seq<nat>, ev: CanonicalEvent) {
    exists k :: 0 <= k < |done| && Claims(rows, done[k], ev)
  }

  ghost predicate AllCurrent(rows: seq<Evidence>, customer: nat, done: seq<nat>) {
    NoDuplicates(done) && forall k | 0 <= k < |done| :: Current(rows, customer, done[k])
  }

  lemma ClaimedByMore(rows: seq<Evidence>, done: seq<nat>, id: nat, ev: CanonicalEvent)
    ensures ClaimedBy(rows, done + [id], ev) <==> ClaimedBy(rows, done, ev) || Claims(rows, id, ev)
  {
    var more := done + [id];
    assert more[|done|] == id;
    if ClaimedBy(rows, done, ev) {
      var k :| 0 <= k < |done| && Claims(rows, done[k], ev);
      assert Claims(rows, more[k], ev);
    }
    if ClaimedBy(rows, more, ev) {
      var k :| 0 <= k < |more| && Claims(rows, more[k], ev);
      assert k < |done| ==> Claims(rows, done[k], ev);
    }
  }

  lemma FoundStep(
    rows: seq<Evidence>, customer: nat, events: seq<CanonicalEvent>,
    done: seq<nat>, after: seq<CanonicalEvent>, timeline: seq<nat>, added: seq<nat>, id: nat, e: nat)
    requires WellKept(rows, events) && AllCurrent(rows, customer, done + [id])
    requires Partial(rows, customer, events, done, after, timeline, added)
    requires e < |events| && Claims(rows, id, events[e])
    ensures Partial(rows, customer, events, done + [id], after[e := Retarget(after[e], rows, id)], timeline + [e],
            added)
  {
    var more := done + [id];
    assert more[|done|] == id;
    assert forall k | 0 <= k < |done| :: more[k] == done[k];
    forall k | 0 <= k < |done| ensures !Claims(rows, done[k], events[e]) {
      if Claims(rows, done[k], events[e]) { ClaimUnique(rows, customer, events[e], more[k], id); }
    }
    ClaimRefreshes(rows, customer, events[e], id);
    forall f | 0 <= f < |events|
      ensures ClaimedBy(rows, more, events[f]) <==> ClaimedBy(rows, done, events[f]) || f == e {
      ClaimedByMore(rows, done, id, events[f]);
      if f != e { OneClaimed(rows, events, id, e, f); }
    }
    assert Covered(rows, events, id);
    assert forall k | 0 <= k < |done| :: timeline[k] != e;
  }

  lemma NewStep(
    rows: seq<Evidence>, customer: nat, events: seq<CanonicalEvent>,
    done: seq<nat>, after: seq<CanonicalEvent>, timeline: seq<nat>, added: seq<nat>, id: nat)
    requires WellKept(rows, events) && AllCurrent(rows, customer, done + [id])
    requires Partial(rows, customer, events, done, after, timeline, added)
    requires id < |rows| && !Covered(rows, events, id)
    ensures Partial(rows, customer, events, done + [id],
                    after + [NewEvent(rows, id)], timeline + [|after|], added + [id])
  {
    var more := done + [id];
    assert more[|done|] == id;
    forall f | 0 <= f < |events| ensures ClaimedBy(rows, more, events[f]) <==> ClaimedBy(rows, done, events[f]) {
      ClaimedByMore(rows, done, id, events[f]);
    }
    assert forall k | 0 <= k < |done| :: more[k] == done[k] != more[|done|];
  }

  method Assemble(rows: seq<Evidence>, customer: nat, ids: seq<nat>, events: seq<CanonicalEvent>)
    returns (after: seq<CanonicalEvent>, timeline: seq<nat>, added: seq<nat>)
    requires WellKept(rows, events) && Lists(rows, customer, ids)
    ensures Assembles(rows, customer, events, added, after)
    ensures IsTimeline(rows, ids, after, timeline)
  {
    hide Chained;
    var byEvidence := IndexByEvidence(events);
    after, timeline, added := events, [], [];
    for i := 0 to |ids|
      invariant Partial(rows, customer, events, ids[..i], after, timeline, added)
    {
      var id := ids[i];
      assert ids[..i + 1] == ids[..i] + [id];
      assert forall k | 0 <= k < |ids| :: ids[k] in ids;
      assert AllCurrent(rows, customer, ids[..i + 1]);
      var event: Option<nat> := None;
      if id in byEvidence {
        event := Some(byEvidence[id]);
      } else if rows[id].supersedes.Some? && rows[id].supersedes.value in byEvidence {
        event := Some(byEvidence[rows[id].supersedes.value]);
      }
      match event {
        case Some(e) =>
          FoundStep(rows, customer, events, ids[..i], after, timeline, added, id, e);
          after := after[e := Retarget(after[e], rows, id)];
          timeline := timeline + [e];
        case None =>
          NewStep(rows, customer, events, ids[..i], after, timeline, added, id);
          after := after + [NewEvent(rows, id)];
          added := added + [id];
          timeline := timeline + [|after| - 1];
      }
    }
    assert ids[..|ids|] == ids;
    assert forall k | 0 <= k < |added| :: added[k] in added;
    forall e | 0 <= e < |events| ensures after[e] == Refreshed(rows, customer, events[e]) {
      if !ClaimedBy(rows, ids, events[e]) {
        UnclaimedUnchanged(rows, customer, ids, events[e]);
      }
    }
  }

  /** No two stored events are claimed by the same row. */
  lemma OneClaimed(rows: seq<Evidence>, events: seq<CanonicalEvent>, id: nat, e: nat, f: nat)
    requires WellKept(rows, events) && id < |rows|
    requires e < |events| && f < |events| && e != f
    requires Claims(rows, id, events[e])
    ensures !Claims(rows, id, events[f])
  {}

  lemma UnclaimedUnchanged(rows: seq<Evidence>, customer: nat, ids: seq<nat>, ev: CanonicalEvent)
    requires Chained(rows) && Lists(rows, customer, ids)
    requires forall k | 0 <= k < |ids| :: !Claims(rows, ids[k], ev)
    ensures Refreshed(rows, customer, ev) == ev
  {
    var next := Successor(rows, ev.evidence);
    assert ev.evidence in ids <==> Current(rows, customer, ev.evidence);
    assert next.Some? ==> (next.value in ids <==> Current(rows, customer, next.value));
  }

  // ----- What assembling guarantees -----

  /** Assembling keeps event references distinct and never leaves both ends of a correction. */
  lemma AssemblyKeeps(
    rows: seq<Evidence>, customer: nat, events: seq<CanonicalEvent>, added: seq<nat>, after: seq<CanonicalEvent>)
    requires WellKept(rows, events) && Assembles(rows, customer, events, added, after)
    ensures WellKept(rows, after)
  {
    forall e | 0 <= e < |after| ensures Depicts(after[e], rows) {
      WhereItCameFrom(rows, customer, events, added, after, e);
      if e < |events| {
        RefreshedDepicts(rows, customer, events[e]);
      } else {
        assert after[|events| + (e - |events|)] == NewEvent(rows, added[e - |events|]);
      }
    }
    forall e, f | 0 <= e < |after| && 0 <= f < |after|
      ensures e != f ==> after[e].evidence != after[f].evidence
      ensures rows[after[e].evidence].supersedes != Some(after[f].evidence)
    {
      WhereItCameFrom(rows, customer, events, added, after, e);
      WhereItCameFrom(rows, customer, events, added, after, f);
      if e < |events| && f < |events| && e != f {
        var x := after[e].evidence;
        if after[f].evidence == x && Current(rows, customer, x) {
          OneClaimed(rows, events, x, e, f);
        }
      }
      if rows[after[e].evidence].supersedes == Some(after[f].evidence) {
        SuccessorIs(rows, after[f].evidence, after[e].evidence);
      }
    }
  }

  /** Following a correction keeps the source: a chain stays within one key. */
  lemma RefreshedDepicts(rows: seq<Evidence>, customer: nat, ev: CanonicalEvent)
    requires Chained(rows) && Depicts(ev, rows)
    ensures Depicts(Refreshed(rows, customer, ev), rows)
  {
    var next := Successor(rows, ev.evidence);
    assert next.Some? ==> PointsBack(rows, next.value);
  }

  /** After assembling, an event points at a current row that claimed it, is new, or did not move. */
  lemma WhereItCameFrom(
    rows: seq<Evidence>, customer: nat, events: seq<CanonicalEvent>, added: seq<nat>, after: seq<CanonicalEvent>,
      e: nat)
    requires WellKept(rows, events) && Assembles(rows, customer, events, added, after) && e < |after|
    ensures after[e].evidence < |rows|
    ensures e >= |events| ==>
        && Current(rows, customer, after[e].evidence) && !Covered(rows, events, after[e].evidence)
        && after[e].evidence == added[e - |events|]
    ensures e < |events| && Current(rows, customer, after[e].evidence) ==> Claims(rows, after[e].evidence, events[e])
    ensures e < |events| && !Current(rows, customer, after[e].evidence) ==> after[e] == events[e]
    ensures e < |events| && !Current(rows, customer, after[e].evidence) ==>
        forall id | Current(rows, customer, id) :: !Claims(rows, id, events[e])
  {
    if e >= |events| {
      assert after[|events| + (e - |events|)] == NewEvent(rows, added[e - |events|]);
      assert added[e - |events|] in added;
    } else {
      forall id | Current(rows, customer, id) && Claims(rows, id, events[e]) ensures after[e].evidence == id {
        ClaimRefreshes(rows, customer, events[e], id);
      }
    }
  }

  /** Events pointing at current evidence and current evidence are in bijection. */
  lemma TimelineIsBijective(
    rows: seq<Evidence>, customer: nat, events: seq<CanonicalEvent>, added: seq<nat>, after: seq<CanonicalEvent>,
      id: nat)
    requires WellKept(rows, events) && Assembles(rows, customer, events, added, after)
    requires Current(rows, customer, id)
    ensures exists e :: 0 <= e < |after| && after[e].evidence == id
    ensures forall e, f | 0 <= e < |after| && 0 <= f < |after| && after[e].evidence == after[f].evidence == id :: e == f
  {
    AssemblyKeeps(rows, customer, events, added, after);
    if Covered(rows, events, id) {
      var e :| 0 <= e < |events| && Claims(rows, id, events[e]);
      ClaimRefreshes(rows, customer, events[e], id);
      assert after[e].evidence == id;
    } else {
      assert id in added;
      var k :| 0 <= k < |added| && added[k] == id;
      assert after[|events| + k].evidence == id;
    }
  }

  /** Assembling again on the same evidence creates nothing and changes nothing. */
  lemma AssemblyIdempotent(
    rows: seq<Evidence>, customer: nat,
    events: seq<CanonicalEvent>, added: seq<nat>, after: seq<CanonicalEvent>,
    addedAgain: seq<nat>, again: seq<CanonicalEvent>)
    requires WellKept(rows, events) && Assembles(rows, customer, events, added, after)
    requires Assembles(rows, customer, after, addedAgain, again)
    ensures addedAgain == [] && again == after
  {
    forall id: nat | Current(rows, customer, id) ensures Covered(rows, after, id) {
      TimelineIsBijective(rows, customer, events, added, after, id);
      var e :| 0 <= e < |after| && after[e].evidence == id;
      assert Claims(rows, id, after[e]);
    }
    assert Elements(addedAgain) == {};
    DistinctLength(addedAgain);
    forall e | 0 <= e < |after| ensures again[e] == after[e] {
      if e < |events| {
        RefreshedTwice(rows, customer, events[e]);
      } else {
        assert after[|events| + (e - |events|)] == NewEvent(rows, added[e - |events|]);
      }
    }
  }

  lemma RefreshedTwice(rows: seq<Evidence>, customer: nat, ev: CanonicalEvent)
    requires Chained(rows)
    ensures Refreshed(rows, customer, Refreshed(rows, customer, ev)) == Refreshed(rows, customer, ev)
  {}

  /**
   Exactly when a stored event is left pointing at superseded evidence: its row had been
   superseded and that row's correction is not current for the case, because it was itself
   corrected since or belongs to another customer. One hop per assembly is always followed.
   */
  lemma StaleExactlyAfterTwoHops(
    rows: seq<Evidence>, customer: nat, events: seq<CanonicalEvent>, added: seq<nat>, after: seq<CanonicalEvent>,
      e: nat)
    requires WellKept(rows, events) && Assembles(rows, customer, events, added, after)
    requires e < |events|
    ensures var x := events[e].evidence;
            rows[after[e].evidence].superseded <==>
              rows[x].superseded && !Current(rows, customer, Successor(rows, x).value)
  {
    var x := events[e].evidence;
    if rows[x].superseded {
      assert Corrected(rows, x);
      var j :| x < j < |rows| && rows[j].supersedes == Some(x);
      SuccessorIs(rows, x, j);
    }
  }

  /** Ingesting keeps the event table well kept: the new row has no event yet. */
  lemma IngestKeepsEvents(rows: seq<Evidence>, events: seq<CanonicalEvent>, d: Delivery)
    requires WellKept(rows, events)
    ensures WellKept(Ingested(rows, d), events)
  {
    IngestKeepsChains(rows, d);
    IngestGrows(rows, d);
  }

  // ----- Over whole runs -----

  datatype Tables = Tables(rows: seq<Evidence>, events: seq<CanonicalEvent>)

  /** A delivery for any customer, or an assembly for the case's customer. */
  ghost predicate TableStep(customer: nat, before: Tables, after: Tables) {
    || (exists d :: after == Tables(Ingested(before.rows, d), before.events))
    || (exists added ::
      after.rows == before.rows && Assembles(before.rows, customer, before.events, added, after.events))
  }

  /** However deliveries and assemblies interleave, event references stay valid and distinct. */
  lemma {:induction false} RunsKeepTimeline(customer: nat, run: seq<Tables>)
    requires run != [] && run[0] == Tables([], [])
    requires forall i | 0 <= i < |run| - 1 :: TableStep(customer, run[i], run[i + 1])
    ensures forall i | 0 <= i < |run| :: WellKept(run[i].rows, run[i].events)
  {
    if |run| > 1 {
      var n := |run| - 2;
      assert run[..n + 1] != [] && run[..n + 1][n] == run[n];
      RunsKeepTimeline(customer, run[..n + 1]);
      var before, after := run[n], run[n + 1];
      assert TableStep(customer, before, after);
      if d :| after == Tables(Ingested(before.rows, d), before.events) {
        IngestKeepsEvents(before.rows, before.events, d);
      } else {
        var added :| after.rows == before.rows && Assembles(before.rows, customer, before.events, added, after.events);
        AssemblyKeeps(before.rows, customer, before.events, added, after.events);
      }
      assert forall i | 0 <= i < |run| - 1 :: run[..n + 1][i] == run[i];
    }
  }
}
