/** When assembling leaves an event on superseded evidence, and when it never does. */
module TimelineFreshness {
  import opened Domain
  import opened Sequences
  import opened EvidenceStore
  import opened Timeline

  // ----- Two corrections between assemblies -----

  /** A run of the two tables, from empty ones, by deliveries and assemblies. */
  ghost predicate IsRun(customer: nat, run: seq<Tables>) {
    && run != [] && run[0] == Tables([], [])
    && forall i | 0 <= i < |run| - 1 :: TableStep(customer, run[i], run[i + 1])
  }

  /** A stored event on superseded evidence, and another for the same fact as it now stands. */
  ghost predicate ToldTwice(customer: nat, t: Tables) {
    exists e, f :: 0 <= e < |t.events| && 0 <= f < |t.events|
      && t.events[e].evidence < |t.rows| && t.rows[t.events[e].evidence].superseded
      && Current(t.rows, customer, t.events[f].evidence)
      && t.rows[t.events[f].evidence].key == t.rows[t.events[e].evidence].key
  }

  lemma ThreeVersions(fact: Delivery, fix: Delivery, again: Delivery)
    requires fix.key == fact.key == again.key && fix.payload != fact.payload && again.payload != fix.payload
    ensures var was, mid, last := NewRow(fact), NewRow(fix).(supersedes := Some(0)),
            NewRow(again).(supersedes := Some(1));
            && Ingested([], fact) == [was]
            && Ingested([was], fix) == [was.(superseded := true), mid]
            && Ingested([was.(superseded := true), mid], again) == [was.(superseded := true), mid.(superseded := true),
              last]
  {
    var was, mid := NewRow(fact), NewRow(fix).(supersedes := Some(0));
    WhereOne([was], Matching(fact.key));
    var two := [was.(superseded := true), mid];
    assert two[..1] == [two[0]] && Where(two[..1], Matching(fact.key)) == [] by { assert two[..1][..0] == []; }
    assert Where(two, Matching(fact.key)) == [1];
  }

  lemma FirstAssembly(customer: nat, rows: seq<Evidence>)
    requires |rows| == 1 && Current(rows, customer, 0)
    ensures Assembles(rows, customer, [], [0], [NewEvent(rows, 0)])
  {}

  lemma SecondAssembly(customer: nat, rows: seq<Evidence>, event: CanonicalEvent)
    requires |rows| == 3 && Current(rows, customer, 2) && rows[0].superseded && rows[1].superseded
    requires rows[1].supersedes == Some(0) && rows[2].supersedes == Some(1) && event.evidence == 0
    ensures Assembles(rows, customer, [event], [2], [event, NewEvent(rows, 2)])
  {
    assert forall ev | ev in [event] :: !Claims(rows, 2, ev);
  }

  /**
   A fact is assembled, corrected, corrected again and assembled: its first event stays on the
   superseded row and a second event is created for it.
   */
  lemma TwoCorrectionsAreToldTwice(customer: nat, fact: Delivery, fix: Delivery, again: Delivery)
    requires fact.customer == fix.customer == again.customer == customer
    requires fix.key == fact.key == again.key && fix.payload != fact.payload && again.payload != fix.payload
    ensures exists run :: IsRun(customer, run) && ToldTwice(customer, run[|run| - 1])
  {
    hide Ingested, Assembles, IsRun, ToldTwice;
    var was, mid, last := NewRow(fact), NewRow(fix).(supersedes := Some(0)), NewRow(again).(supersedes := Some(1));
    var one, two := [was], [was.(superseded := true), mid];
    var three := [was.(superseded := true), mid.(superseded := true), last];
    ThreeVersions(fact, fix, again);
    var event := NewEvent(one, 0);
    FirstAssembly(customer, one);
    SecondAssembly(customer, three, event);
    var run := [Tables([], []), Tables(one, []), Tables(one, [event]), Tables(two, [event]), Tables(three, [event]),
                Tables(three, [event, NewEvent(three, 2)])];
    SixSteps(customer, run, fact, fix, again);
    TheSecondEvent(customer, run[5]);
  }

  lemma SixSteps(customer: nat, run: seq<Tables>, fact: Delivery, fix: Delivery, again: Delivery)
    requires |run| == 6 && run[0] == Tables([], [])
    requires run[1] == Tables(Ingested(run[0].rows, fact), run[0].events)
    requires run[2].rows == run[1].rows && Assembles(run[1].rows, customer, run[1].events, [0], run[2].events)
    requires run[3] == Tables(Ingested(run[2].rows, fix), run[2].events)
    requires run[4] == Tables(Ingested(run[3].rows, again), run[3].events)
    requires run[5].rows == run[4].rows && Assembles(run[4].rows, customer, run[4].events, [2], run[5].events)
    ensures IsRun(customer, run)
  {
    hide Ingested, Assembles;
    forall i | 0 <= i < |run| - 1 ensures TableStep(customer, run[i], run[i + 1]) {
      assert i == 0 || i == 1 || i == 2 || i == 3 || i == 4;
    }
  }

  lemma TheSecondEvent(customer: nat, t: Tables)
    requires |t.rows| == 3 && |t.events| == 2 && t.events[0].evidence == 0 && t.events[1].evidence == 2
    requires t.rows[0].superseded && Current(t.rows, customer, 2) && t.rows[2].key == t.rows[0].key
    ensures ToldTwice(customer, t)
  {
    assert t.rows[t.events[1].evidence].key == t.rows[t.events[0].evidence].key;
  }

  // ----- One correction per row between assemblies -----

  /** Every event is on a row of the customer's that is no repeat and not superseded. */
  ghost predicate Fresh(rows: seq<Evidence>, customer: nat, events: seq<CanonicalEvent>) {
    forall e | 0 <= e < |events| :: OnOwnFact(rows, customer, events[e]) && !rows[events[e].evidence].superseded
  }

  predicate OnOwnFact(rows: seq<Evidence>, customer: nat, ev: CanonicalEvent) {
    ev.evidence < |rows| && rows[ev.evidence].customer == customer && rows[ev.evidence].duplicateOf.None?
  }

  /** A row of the customer's that was current when there were n rows. */
  ghost predicate WasCurrent(rows: seq<Evidence>, customer: nat, n: nat, x: nat) {
    && x < n && x < |rows| && rows[x].customer == customer && rows[x].duplicateOf.None?
    && forall j | 0 <= j < n && j < |rows| :: rows[j].supersedes != Some(x)
  }

  /** The events were those of the rows that were current when there were n rows. */
  ghost predicate FreshAt(rows: seq<Evidence>, customer: nat, events: seq<CanonicalEvent>, n: nat) {
    && n <= |rows|
    && (forall e | 0 <= e < |events| :: WasCurrent(rows, customer, n, events[e].evidence))
    && (forall x: nat | WasCurrent(rows, customer, n, x) :: exists e :: 0 <= e < |events| && events[e].evidence == x)
  }

  /** What has corrected a row that was current then is current now: the customer's, and not corrected itself. */
  ghost predicate OneHop(rows: seq<Evidence>, customer: nat, n: nat) {
    forall x: nat, j: nat | WasCurrent(rows, customer, n, x) && j < |rows| && rows[j].supersedes == Some(x) ::
      Current(rows, customer, j)
  }

  lemma DeliveryKeepsFreshAt(rows: seq<Evidence>, customer: nat, events: seq<CanonicalEvent>, n: nat, d: Delivery)
    requires FreshAt(rows, customer, events, n)
    ensures FreshAt(Ingested(rows, d), customer, events, n)
  {
    var after := Ingested(rows, d);
    IngestGrows(rows, d);
    forall x: nat ensures WasCurrent(after, customer, n, x) <==> WasCurrent(rows, customer, n, x) {
      assert forall j | 0 <= j < n :: after[j].supersedes == rows[j].supersedes;
    }
  }

  /** An event ends up on superseded evidence exactly if its row's correction is not current. */
  lemma AssemblyRefreshes(
    rows: seq<Evidence>, customer: nat, events: seq<CanonicalEvent>, n: nat, added: seq<nat>,
      after: seq<CanonicalEvent>, e: nat)
    requires WellKept(rows, events) && Assembles(rows, customer, events, added, after) && e < |events|
    requires FreshAt(rows, customer, events, n)
    ensures OnOwnFact(rows, customer, after[e])
    ensures !rows[after[e].evidence].superseded <==>
              forall j: nat | j < |rows| && rows[j].supersedes == Some(events[e].evidence) :: Current(rows, customer, j)
  {
    var x := events[e].evidence;
    assert WasCurrent(rows, customer, n, x);
    forall j: nat | j < |rows| && rows[j].supersedes == Some(x)
      ensures Successor(rows, x) == Some(j) && rows[x].superseded {
      SuccessorIs(rows, x, j);
    }
    if rows[x].superseded {
      assert Corrected(rows, x);
    }
  }

  /** With fresh events before, those after are fresh if and only if no row was corrected past one hop. */
  lemma AssemblyIsFreshIff(
    rows: seq<Evidence>, customer: nat, events: seq<CanonicalEvent>, n: nat, added: seq<nat>,
      after: seq<CanonicalEvent>)
    requires WellKept(rows, events) && Assembles(rows, customer, events, added, after)
    requires FreshAt(rows, customer, events, n)
    ensures Fresh(rows, customer, after) <==> OneHop(rows, customer, n)
  {
    hide WellKept, Assembles, Refreshed;
    if OneHop(rows, customer, n) {
      forall e | 0 <= e < |after| ensures OnOwnFact(rows, customer, after[e]) && !rows[after[e].evidence].superseded {
        if e < |events| {
          AssemblyRefreshes(rows, customer, events, n, added, after, e);
        } else {
          WhereItCameFrom(rows, customer, events, added, after, e);
        }
      }
    }
    if Fresh(rows, customer, after) {
      forall x: nat | WasCurrent(rows, customer, n, x)
        ensures forall j: nat | j < |rows| && rows[j].supersedes == Some(x) :: Current(rows, customer, j)
      {
        var e :| 0 <= e < |events| && events[e].evidence == x;
        AssemblyGrows(rows, customer, events, added, after);
        AssemblyRefreshes(rows, customer, events, n, added, after, e);
      }
    }
  }

  lemma AssemblyGrows(
      rows: seq<Evidence>, customer: nat, events: seq<CanonicalEvent>, added: seq<nat>, after: seq<CanonicalEvent>)
    requires Assembles(rows, customer, events, added, after)
    ensures |events| <= |after|
  {}

  lemma FreshIsFreshNow(
    rows: seq<Evidence>, customer: nat, events: seq<CanonicalEvent>, added: seq<nat>, after: seq<CanonicalEvent>)
    requires WellKept(rows, events) && Assembles(rows, customer, events, added, after) && Fresh(rows, customer, after)
    ensures FreshAt(rows, customer, after, |rows|)
  {
    hide Assembles, Refreshed;
    forall x: nat | x < |rows| ensures WasCurrent(rows, customer, |rows|, x) <==> Current(rows, customer, x) {
      assert rows[x].superseded <==> Corrected(rows, x);
      forall j | 0 <= j < |rows| && rows[j].supersedes == Some(x) ensures x < j {
        assert PointsBack(rows, j);
      }
    }
    forall x: nat | WasCurrent(rows, customer, |rows|, x)
      ensures exists e :: 0 <= e < |after| && after[e].evidence == x {
      TimelineIsBijective(rows, customer, events, added, after, x);
    }
  }

  /** A step that adds no row is an assembly. */
  predicate IsAssembly(before: Tables, after: Tables) {
    |after.rows| == |before.rows|
  }

  /** How many rows there were at the last assembly of a run. */
  function RowsAtAssembly(run: seq<Tables>): nat {
    if |run| < 2 then 0
    else if IsAssembly(run[|run| - 2], run[|run| - 1]) then |run[|run| - 1].rows|
    else RowsAtAssembly(run[..|run| - 1])
  }

  /** If step i assembles, its events are fresh. */
  ghost predicate FreshStep(customer: nat, run: seq<Tables>, i: nat)
    requires i + 1 < |run|
  {
    IsAssembly(run[i], run[i + 1]) ==> Fresh(run[i + 1].rows, customer, run[i + 1].events)
  }

  /** If step i assembles, what has corrected a row since the assembly before is current. */
  ghost predicate OneHopStep(customer: nat, run: seq<Tables>, i: nat)
    requires i + 1 < |run|
  {
    IsAssembly(run[i], run[i + 1]) ==> OneHop(run[i].rows, customer, RowsAtAssembly(run[..i + 1]))
  }

  ghost predicate FreshThroughout(customer: nat, run: seq<Tables>) {
    forall i: nat | i < |run| - 1 :: FreshStep(customer, run, i)
  }

  ghost predicate OneHopEach(customer: nat, run: seq<Tables>) {
    forall i: nat | i < |run| - 1 :: OneHopStep(customer, run, i)
  }

  /**
   Over every run, no event is on superseded evidence after any assembly if and only if between two
   assemblies no row was corrected twice, nor by a record of another customer.
   */
  lemma {:induction false} FreshIffOneHopEach(customer: nat, run: seq<Tables>)
    requires IsRun(customer, run)
    ensures FreshThroughout(customer, run) <==> OneHopEach(customer, run)
    ensures FreshThroughout(customer, run) ==>
            FreshAt(run[|run| - 1].rows, customer, run[|run| - 1].events, RowsAtAssembly(run))
  {
    hide FreshAt, OneHop, Fresh, TableStep, FreshThroughout, OneHopEach;
    if |run| == 1 {
      StartsFresh(customer, run);
      assert FreshThroughout(customer, run) && OneHopEach(customer, run) by { NoStepsYet(customer, run); }
    } else {
      var n := |run| - 2;
      var front := run[..n + 1];
      FrontIsRun(customer, run, n);
      FrontIsFresh(customer, run, n);
      FreshIffOneHopEach(customer, front);
      if FreshThroughout(customer, front) {
        EndIsWellKept(customer, front);
        StepIsFreshIff(customer, run[n], run[n + 1], RowsAtAssembly(front));
      }
    }
  }

  lemma NoStepsYet(customer: nat, run: seq<Tables>)
    requires |run| == 1
    ensures FreshThroughout(customer, run) && OneHopEach(customer, run)
  {}

  lemma EndIsWellKept(customer: nat, run: seq<Tables>)
    requires IsRun(customer, run)
    ensures WellKept(run[|run| - 1].rows, run[|run| - 1].events)
  {
    RunsKeepTimeline(customer, run);
  }

  lemma FrontIsRun(customer: nat, run: seq<Tables>, n: nat)
    requires IsRun(customer, run) && n == |run| - 2
    ensures IsRun(customer, run[..n + 1]) && run[..n + 1][n] == run[n] && TableStep(customer, run[n], run[n + 1])
  {
    hide TableStep;
    var front := run[..n + 1];
    forall i | 0 <= i < n ensures TableStep(customer, front[i], front[i + 1]) {
      assert front[i] == run[i] && front[i + 1] == run[i + 1];
    }
  }

  lemma FrontIsFresh(customer: nat, run: seq<Tables>, n: nat)
    requires n == |run| - 2
    ensures OneHopEach(customer, run) <==> OneHopEach(customer, run[..n + 1]) && OneHopStep(customer, run, n)
    ensures FreshThroughout(customer, run) <==> FreshThroughout(customer, run[..n + 1]) && FreshStep(customer, run, n)
  {
    hide OneHop, Fresh, RowsAtAssembly, IsAssembly;
    var front := run[..n + 1];
    forall i: nat | i < n
      ensures OneHopStep(customer, front, i) <==> OneHopStep(customer, run, i)
      ensures FreshStep(customer, front, i) <==> FreshStep(customer, run, i)
    {
      SameStep(customer, run, n, i);
    }
    if OneHopEach(customer, front) && OneHopStep(customer, run, n) {
      forall i: nat | i < |run| - 1 ensures OneHopStep(customer, run, i) {
        assert i < n ==> OneHopStep(customer, front, i);
      }
    }
    if FreshThroughout(customer, front) && FreshStep(customer, run, n) {
      forall i: nat | i < |run| - 1 ensures FreshStep(customer, run, i) {
        assert i < n ==> FreshStep(customer, front, i);
      }
    }
    assert OneHopEach(customer, run) ==> OneHopEach(customer, front);
    assert FreshThroughout(customer, run) ==> FreshThroughout(customer, front);
  }

  lemma SameStep(customer: nat, run: seq<Tables>, n: nat, i: nat)
    requires i < n == |run| - 2
    ensures OneHopStep(customer, run[..n + 1], i) <==> OneHopStep(customer, run, i)
    ensures FreshStep(customer, run[..n + 1], i) <==> FreshStep(customer, run, i)
  {
    hide OneHop, Fresh, RowsAtAssembly, IsAssembly;
    assert run[..n + 1][..i + 1] == run[..i + 1];
  }

  lemma StartsFresh(customer: nat, run: seq<Tables>)
    requires IsRun(customer, run) && |run| == 1
    ensures FreshAt(run[0].rows, customer, run[0].events, 0)
  {}

  lemma StepIsFreshIff(customer: nat, before: Tables, after: Tables, n: nat)
    requires TableStep(customer, before, after) && WellKept(before.rows, before.events)
    requires FreshAt(before.rows, customer, before.events, n)
    ensures !IsAssembly(before, after) ==> FreshAt(after.rows, customer, after.events, n)
    ensures IsAssembly(before, after) ==>
            (Fresh(after.rows, customer, after.events) <==> OneHop(before.rows, customer, n))
    ensures IsAssembly(before, after) && Fresh(after.rows, customer, after.events) ==>
              FreshAt(after.rows, customer, after.events, |after.rows|)
  {
    hide FreshAt, OneHop, Fresh, WellKept, Assembles, Ingested;
    if d :| after == Tables(Ingested(before.rows, d), before.events) {
      IngestGrows(before.rows, d);
      DeliveryKeepsFreshAt(before.rows, customer, before.events, n, d);
    } else {
      var added :| after.rows == before.rows && Assembles(before.rows, customer, before.events, added, after.events);
      AssemblyIsFreshIff(before.rows, customer, before.events, n, added, after.events);
      if Fresh(after.rows, customer, after.events) {
        FreshIsFreshNow(before.rows, customer, before.events, added, after.events);
      }
    }
  }
}
