/** Explicit flags for duplicate, contradictory, missing and stale evidence. */
module Uncertainty {
  import opened Domain
  import opened Sequences
  import opened Timeline
  import opened FlagRules

  const HOUR := 3600
  const STALE_AFTER := 48 * HOUR

  /** The source expected to follow and the window it has, in seconds. */
  function ExpectedFollowup(source: Source): Option<(Source, int)> {
    match source
    case Order => Some((Payment, 1 * HOUR))
    case Payment => Some((FulfillmentUpdate, 48 * HOUR))
    case Return => Some((Payment, 72 * HOUR))
    case _ => None
  }

  datatype Sort = CapturedPayment | AnyFulfillment | TerminalFulfillment | DeliveredFulfillment | Dispute

  predicate IsTerminal(status: FactStatus) {
    status == Delivered || status == LostInTransit || status == ReturnedToSender || status == DeliveryFailed
  }

  predicate IsDispute(disposition: Disposition) {
    disposition == ItemNotReceived || disposition == WrongItem || disposition == DisputesDelivery
    || disposition == UnauthorizedCharge
  }

  predicate IsA(e: Evidence, sort: Sort) {
    match sort
    case CapturedPayment => e.key.source == Payment && e.payload.status == Captured
    case AnyFulfillment => e.key.source == FulfillmentUpdate
    case TerminalFulfillment => e.key.source == FulfillmentUpdate && IsTerminal(e.payload.status)
    case DeliveredFulfillment => e.key.source == FulfillmentUpdate && e.payload.status == Delivered
    case Dispute => e.key.source == ContactCenterRecord && IsDispute(e.payload.disposition)
  }

  // ----- The violated conditions -----

  /** The current rows of one sort for one order. */
  function Of(rows: seq<Evidence>, customer: nat, sort: Sort, order: Option<nat>): set<nat> {
    set id: nat | id < |rows| && Current(rows, customer, id) && IsA(rows[id], sort) && rows[id].order == order
  }

  function Outcomes(rows: seq<Evidence>, customer: nat, order: Option<nat>): set<FactStatus> {
    set id | id in Of(rows, customer, TerminalFulfillment, order) :: rows[id].payload.status
  }

  ghost predicate FollowedUp(rows: seq<Evidence>, customer: nat, id: nat, expected: Source)
    requires id < |rows|
  {
    exists f: nat :: f < |rows| && Current(rows, customer, f)
      && rows[f].key.source == expected && rows[f].order == rows[id].order && rows[f].occurredAt >= rows[id].occurredAt
  }

  /** A row whose expected follow-up is overdue. */
  ghost predicate Overdue(rows: seq<Evidence>, customer: nat, now: int, id: nat) {
    && Current(rows, customer, id)
    && var followup := ExpectedFollowup(rows[id].key.source);
       && followup.Some?
       && now > rows[id].occurredAt + followup.value.1
       && !FollowedUp(rows, customer, id, followup.value.0)
  }

  function MissingFor(e: Evidence, expected: Source): Description {
    MissingFollowup(expected, e.key.source, e.key.externalRef)
  }

  ghost predicate Latest(rows: seq<Evidence>, customer: nat, id: nat) {
    && Current(rows, customer, id)
    && forall j: nat | Current(rows, customer, j) :: rows[j].occurredAt <= rows[id].occurredAt
  }

  /** The evidence for a description to be raised, and what it cites, at time `now`. */
  ghost predicate Cites(rows: seq<Evidence>, customer: nat, now: int, d: Description, cited: set<nat>) {
    match d
    case CapturedTwice(n, order) =>
      cited == Of(rows, customer, CapturedPayment, order) && n == |cited| > 1
    case ConflictingOutcomes(order, outcomes) =>
      cited == Of(rows, customer, TerminalFulfillment, order) && outcomes == Outcomes(rows, customer, order)
        && |outcomes| > 1
    case DisputedDelivery(order) =>
      && cited == Of(rows, customer, Dispute, order) + Of(rows, customer, DeliveredFulfillment, order)
      && Of(rows, customer, Dispute, order) != {} && Of(rows, customer, DeliveredFulfillment, order) != {}
    case MissingFollowup(expected, after, externalRef) =>
      exists id :: cited == {id} && Overdue(rows, customer, now, id)
        && d == MissingFor(rows[id], ExpectedFollowup(rows[id].key.source).value.0)
    case NoActivitySince(mostRecent) =>
      && mostRecent < now - STALE_AFTER
      && (exists id: nat :: Latest(rows, customer, id) && rows[id].occurredAt == mostRecent)
      && cited == set id: nat | id < |rows| && Current(rows, customer, id) && rows[id].occurredAt == mostRecent
  }

  ghost predicate Violated(rows: seq<Evidence>, customer: nat, now: int, d: Description) {
    exists cited :: Cites(rows, customer, now, d, cited)
  }

  function TypeOf(d: Description): FlagType {
    match d
    case CapturedTwice(_, _) => Duplicate
    case ConflictingOutcomes(_, _) => Contradictory
    case DisputedDelivery(_) => Contradictory
    case MissingFollowup(_, _, _) => Missing
    case NoActivitySince(_) => Stale
  }

  // ----- Detection -----

  function Descriptions(flags: seq<Flag>): set<Description> {
    set f | f in flags :: f.description
  }

  /** A flag says what is violated, has the matching type, and cites each row once. */
  ghost predicate Justified(rows: seq<Evidence>, customer: nat, now: int, f: Flag) {
    && f.flagType == TypeOf(f.description)
    && NoDuplicates(f.related)
    && Cites(rows, customer, now, f.description, Elements(f.related))
  }

  /** New flags are justified and none repeats a description already open or another new one. */
  ghost predicate Sound(rows: seq<Evidence>, customer: nat, now: int, open: set<Description>, flags: seq<Flag>) {
    && (forall k | 0 <= k < |flags| :: Justified(rows, customer, now, flags[k]) && flags[k].description !in open)
    && (forall k, l | 0 <= k < l < |flags| :: flags[k].description != flags[l].description)
  }

  /** Detection is exact: sound, and every violated condition ends up open. */
  ghost predicate Detects(rows: seq<Evidence>, customer: nat, now: int, open: set<Description>, flags: seq<Flag>) {
    && Sound(rows, customer, now, open, flags)
    && forall d | Violated(rows, customer, now, d) :: IsOpen(open, flags, d)
  }

  predicate IsOpen(open: set<Description>, flags: seq<Flag>, d: Description) {
    d in open || d in Descriptions(flags)
  }

  /** Raise a flag unless its description is already open or was just raised. */
  function AddFlag(open: set<Description>, flags: seq<Flag>, related: seq<nat>, d: Description): seq<Flag> {
    if IsOpen(open, flags, d) then flags else flags + [Flag(TypeOf(d), related, d)]
  }

  lemma AddKeepsSound(
    rows: seq<Evidence>, customer: nat, now: int, open: set<Description>, flags: seq<Flag>, related: seq<nat>,
      d: Description)
    requires Sound(rows, customer, now, open, flags)
    requires NoDuplicates(related) && Cites(rows, customer, now, d, Elements(related))
    ensures var more := AddFlag(open, flags, related, d);
            && Sound(rows, customer, now, open, more)
            && Descriptions(flags) <= Descriptions(more)
            && IsOpen(open, more, d)
  {
    var more := AddFlag(open, flags, related, d);
    assert forall f | f in flags :: f in more && f.description in Descriptions(flags);
    if more != flags {
      assert more[|flags|].description == d && more[|flags|] in more;
      forall k | 0 <= k < |flags| ensures flags[k].description != d {
        assert flags[k] in flags;
      }
    }
  }

  function OfSort(rows: seq<Evidence>, sort: Sort): nat -> bool {
    (id: nat) => id < |rows| && IsA(rows[id], sort)
  }

  /** The grouping dictionaries: for each order, the ids of its rows of one sort. */
  ghost predicate Groups(
    rows: seq<Evidence>, ids: seq<nat>, sort: Sort, orders: seq<Option<nat>>, groups: map<Option<nat>, seq<nat>>)
  {
    && (forall o :: o in groups <==> o in orders)
    && (forall o | o in groups :: NoDuplicates(groups[o]))
    && (forall o, id | o in groups :: id in groups[o] <==>
      id in ids && id < |rows| && IsA(rows[id], sort) && rows[id].order == o)
    && (forall id | id in ids && id < |rows| && IsA(rows[id], sort) :: rows[id].order in groups)
  }

  method GroupByOrder(rows: seq<Evidence>, ids: seq<nat>, sort: Sort)
    returns (orders: seq<Option<nat>>, groups: map<Option<nat>, seq<nat>>)
    requires NoDuplicates(ids) && forall k | 0 <= k < |ids| :: ids[k] < |rows|
    ensures Groups(rows, ids, sort, orders, groups)
  {
    hide IsA;
    orders, groups := [], map[];
    for i := 0 to |ids|
      invariant Groups(rows, ids[..i], sort, orders, groups)
    {
      var id := ids[i];
      assert ids[..i + 1] == ids[..i] + [id];
      assert id !in ids[..i];
      if IsA(rows[id], sort) {
        var order := rows[id].order;
        GroupsGrow(rows, ids[..i], sort, orders, groups, id);
        if order !in groups {
          orders := orders + [order];
          groups := groups[order := []];
        }
        groups := groups[order := groups[order] + [id]];
      } else {
        GroupsSkip(rows, ids[..i], sort, orders, groups, id);
      }
    }
    assert ids[..|ids|] == ids;
  }

  lemma GroupsGrow(
    rows: seq<Evidence>, ids: seq<nat>, sort: Sort, orders: seq<Option<nat>>, groups: map<Option<nat>, seq<nat>>,
      id: nat)
    requires Groups(rows, ids, sort, orders, groups) && id < |rows| && id !in ids && IsA(rows[id], sort)
    ensures var order := rows[id].order;
            Groups(rows, ids + [id], sort, if order in groups then orders else orders + [order],
                   groups[order := (if order in groups then groups[order] else []) + [id]])
  {}

  lemma GroupsSkip(
    rows: seq<Evidence>, ids: seq<nat>, sort: Sort, orders: seq<Option<nat>>, groups: map<Option<nat>, seq<nat>>,
      id: nat)
    requires Groups(rows, ids, sort, orders, groups) && id < |rows| && !IsA(rows[id], sort)
    ensures Groups(rows, ids + [id], sort, orders, groups)
  {}

  lemma GroupIsOf(
    rows: seq<Evidence>, customer: nat, ids: seq<nat>, sort: Sort,
    orders: seq<Option<nat>>, groups: map<Option<nat>, seq<nat>>, order: Option<nat>)
    requires Lists(rows, customer, ids) && Groups(rows, ids, sort, orders, groups)
    ensures order in groups ==> Elements(groups[order]) == Of(rows, customer, sort, order)
    ensures order !in groups ==> Of(rows, customer, sort, order) == {}
  {
    forall id | id in Of(rows, customer, sort, order) ensures id in ids && order in groups {
      assert Current(rows, customer, id) && IsA(rows[id], sort) && rows[id].order == order;
    }
    if order in groups {
      forall id ensures id in Elements(groups[order]) <==> id in Of(rows, customer, sort, order) {
        assert id in groups[order] <==> id in ids && id < |rows| && IsA(rows[id], sort) && rows[id].order == order;
      }
    }
  }

  method DetectDuplicates(
      rows: seq<Evidence>, customer: nat, ids: seq<nat>, now: int, open: set<Description>, flags: seq<Flag>)
    returns (more: seq<Flag>)
    requires Lists(rows, customer, ids) && Sound(rows, customer, now, open, flags)
    ensures Sound(rows, customer, now, open, more) && Descriptions(flags) <= Descriptions(more)
    ensures forall order | |Of(rows, customer, CapturedPayment, order)| > 1 ::
        IsOpen(open, more, CapturedTwice(|Of(rows, customer, CapturedPayment, order)|, order))
  {
    more := flags;
    var orders, groups := GroupByOrder(rows, ids, CapturedPayment);
    for i := 0 to |orders|
      invariant Sound(rows, customer, now, open, more) && Descriptions(flags) <= Descriptions(more)
      invariant forall k | 0 <= k < i && |Of(rows, customer, CapturedPayment, orders[k])| > 1 ::
          IsOpen(open, more, CapturedTwice(|Of(rows, customer, CapturedPayment, orders[k])|, orders[k]))
    {
      var captured := groups[orders[i]];
      GroupIsOf(rows, customer, ids, CapturedPayment, orders, groups, orders[i]);
      DistinctLength(captured);
      if |captured| > 1 {
        var d := CapturedTwice(|captured|, orders[i]);
        AddKeepsSound(rows, customer, now, open, more, captured, d);
        more := AddFlag(open, more, captured, d);
      }
    }
    forall order | |Of(rows, customer, CapturedPayment, order)| > 1 ensures order in orders {
      GroupIsOf(rows, customer, ids, CapturedPayment, orders, groups, order);
    }
  }

  method DistinctStatuses(rows: seq<Evidence>, ids: seq<nat>) returns (statuses: set<FactStatus>)
    requires forall k | 0 <= k < |ids| :: ids[k] < |rows|
    ensures statuses == set k | 0 <= k < |ids| :: rows[ids[k]].payload.status
  {
    statuses := {};
    for i := 0 to |ids|
      invariant statuses == set k | 0 <= k < i :: rows[ids[k]].payload.status
    {
      statuses := statuses + {rows[ids[i]].payload.status};
    }
  }

  method DetectConflicts(
    rows: seq<Evidence>, customer: nat, ids: seq<nat>, now: int, open: set<Description>, flags: seq<Flag>,
    orders: seq<Option<nat>>, groups: map<Option<nat>, seq<nat>>)
    returns (more: seq<Flag>)
    requires Lists(rows, customer, ids) && Sound(rows, customer, now, open, flags)
    requires Groups(rows, ids, AnyFulfillment, orders, groups)
    ensures Sound(rows, customer, now, open, more) && Descriptions(flags) <= Descriptions(more)
    ensures forall order | |Outcomes(rows, customer, order)| > 1 ::
        IsOpen(open, more, ConflictingOutcomes(order, Outcomes(rows, customer, order)))
  {
    hide Sound;
    more := flags;
    for i := 0 to |orders|
      invariant Sound(rows, customer, now, open, more) && Descriptions(flags) <= Descriptions(more)
      invariant forall k | 0 <= k < i && |Outcomes(rows, customer, orders[k])| > 1 ::
          IsOpen(open, more, ConflictingOutcomes(orders[k], Outcomes(rows, customer, orders[k])))
    {
      var terminal := Filter(groups[orders[i]], OfSort(rows, TerminalFulfillment));
      FilteredGroup(rows, customer, ids, orders, groups, orders[i], TerminalFulfillment);
      assert forall k | 0 <= k < |terminal| :: terminal[k] in Elements(terminal);
      var outcomes := DistinctStatuses(rows, terminal);
      OutcomesOfList(rows, customer, orders[i], terminal, outcomes);
      if |outcomes| > 1 {
        var d := ConflictingOutcomes(orders[i], outcomes);
        AddKeepsSound(rows, customer, now, open, more, terminal, d);
        more := AddFlag(open, more, terminal, d);
      }
    }
    forall order | |Outcomes(rows, customer, order)| > 1 ensures order in orders {
      GroupIsOf(rows, customer, ids, AnyFulfillment, orders, groups, order);
      assert Of(rows, customer, TerminalFulfillment, order) <= Of(rows, customer, AnyFulfillment, order);
      assert order !in groups ==> Outcomes(rows, customer, order) == {};
    }
  }

  lemma OutcomesOfList(
      rows: seq<Evidence>, customer: nat, order: Option<nat>, terminal: seq<nat>, outcomes: set<FactStatus>)
    requires Elements(terminal) == Of(rows, customer, TerminalFulfillment, order)
    requires forall k | 0 <= k < |terminal| :: terminal[k] < |rows|
    requires outcomes == set k | 0 <= k < |terminal| :: rows[terminal[k]].payload.status
    ensures outcomes == Outcomes(rows, customer, order)
  {
    forall id | id in Of(rows, customer, TerminalFulfillment, order) ensures rows[id].payload.status in outcomes {
      assert id in Elements(terminal);
    }
    forall k | 0 <= k < |terminal| ensures rows[terminal[k]].payload.status in Outcomes(rows, customer, order) {
      assert terminal[k] in Elements(terminal);
    }
  }

  lemma FilteredGroup(
    rows: seq<Evidence>, customer: nat, ids: seq<nat>,
    orders: seq<Option<nat>>, groups: map<Option<nat>, seq<nat>>, order: Option<nat>, sort: Sort)
    requires Lists(rows, customer, ids) && Groups(rows, ids, AnyFulfillment, orders, groups)
    requires sort == TerminalFulfillment || sort == DeliveredFulfillment
    requires order in groups
    ensures var r := Filter(groups[order], OfSort(rows, sort));
            NoDuplicates(r) && Elements(r) == Of(rows, customer, sort, order)
  {
    FilterMembers(groups[order], OfSort(rows, sort));
    FilterDistinct(groups[order], OfSort(rows, sort));
    GroupIsOf(rows, customer, ids, AnyFulfillment, orders, groups, order);
    assert forall id :: id in groups[order] <==> id in Elements(groups[order]);
  }

  /** The delivered rows of one order, out of the fulfillment groups. */
  method DeliveredFor(
    rows: seq<Evidence>, customer: nat, ids: seq<nat>,
    orders: seq<Option<nat>>, groups: map<Option<nat>, seq<nat>>, order: Option<nat>)
    returns (delivered: seq<nat>)
    requires Lists(rows, customer, ids) && Groups(rows, ids, AnyFulfillment, orders, groups)
    ensures NoDuplicates(delivered) && Elements(delivered) == Of(rows, customer, DeliveredFulfillment, order)
  {
    if order in groups {
      delivered := Filter(groups[order], OfSort(rows, DeliveredFulfillment));
      FilteredGroup(rows, customer, ids, orders, groups, order, DeliveredFulfillment);
    } else {
      delivered := [];
      GroupIsOf(rows, customer, ids, AnyFulfillment, orders, groups, order);
      assert Of(rows, customer, DeliveredFulfillment, order) <= Of(rows, customer, AnyFulfillment, order);
    }
  }

  method DetectDisputes(
    rows: seq<Evidence>, customer: nat, ids: seq<nat>, now: int, open: set<Description>, flags: seq<Flag>,
    orders: seq<Option<nat>>, groups: map<Option<nat>, seq<nat>>)
    returns (more: seq<Flag>)
    requires Lists(rows, customer, ids) && Sound(rows, customer, now, open, flags)
    requires Groups(rows, ids, AnyFulfillment, orders, groups)
    ensures Sound(rows, customer, now, open, more) && Descriptions(flags) <= Descriptions(more)
    ensures forall order | Of(rows, customer, Dispute, order) != {}
            && Of(rows, customer, DeliveredFulfillment, order) != {} ::
        IsOpen(open, more, DisputedDelivery(order))
  {
    hide Sound, Of;
    more := flags;
    var disputed, disputes := GroupByOrder(rows, ids, Dispute);
    for i := 0 to |disputed|
      invariant Sound(rows, customer, now, open, more) && Descriptions(flags) <= Descriptions(more)
      invariant forall k | 0 <= k < i && Of(rows, customer, Dispute, disputed[k]) != {}
                             && Of(rows, customer, DeliveredFulfillment, disputed[k]) != {} ::
          IsOpen(open, more, DisputedDelivery(disputed[k]))
    {
      var order := disputed[i];
      GroupIsOf(rows, customer, ids, Dispute, disputed, disputes, order);
      var delivered := DeliveredFor(rows, customer, ids, orders, groups, order);
      DisputeStep(rows, customer, now, open, more, order, disputes[order], delivered);
      if disputes[order] != [] && delivered != [] {
        more := AddFlag(open, more, disputes[order] + delivered, DisputedDelivery(order));
      }
    }
    forall order | Of(rows, customer, Dispute, order) != {} ensures order in disputed {
      GroupIsOf(rows, customer, ids, Dispute, disputed, disputes, order);
    }
  }

  lemma DisputeStep(
    rows: seq<Evidence>, customer: nat, now: int, open: set<Description>, flags: seq<Flag>,
    order: Option<nat>, disputes: seq<nat>, delivered: seq<nat>)
    requires Sound(rows, customer, now, open, flags)
    requires NoDuplicates(disputes) && Elements(disputes) == Of(rows, customer, Dispute, order)
    requires NoDuplicates(delivered) && Elements(delivered) == Of(rows, customer, DeliveredFulfillment, order)
    ensures var more := if disputes != [] && delivered != []
                        then AddFlag(open, flags, disputes + delivered, DisputedDelivery(order)) else flags;
            && Sound(rows, customer, now, open, more)
            && Descriptions(flags) <= Descriptions(more)
            && (Of(rows, customer, Dispute, order) != {} && Of(rows, customer, DeliveredFulfillment, order) != {} ==>
                  IsOpen(open, more, DisputedDelivery(order)))
  {
    EmptyElements(disputes);
    EmptyElements(delivered);
    if disputes != [] && delivered != [] {
      DisputeCites(rows, customer, now, order, disputes, delivered);
      AddKeepsSound(rows, customer, now, open, flags, disputes + delivered, DisputedDelivery(order));
    }
  }

  lemma DisputeCites(
    rows: seq<Evidence>, customer: nat, now: int, order: Option<nat>, disputes: seq<nat>, delivered: seq<nat>)
    requires disputes != [] && NoDuplicates(disputes) && Elements(disputes) == Of(rows, customer, Dispute, order)
    requires delivered != [] && NoDuplicates(delivered)
             && Elements(delivered) == Of(rows, customer, DeliveredFulfillment, order)
    ensures NoDuplicates(disputes + delivered)
    ensures Cites(rows, customer, now, DisputedDelivery(order), Elements(disputes + delivered))
  {
    EmptyElements(disputes);
    EmptyElements(delivered);
    assert Elements(disputes + delivered) == Elements(disputes) + Elements(delivered);
    forall i, j | 0 <= i < |disputes| && 0 <= j < |delivered| ensures disputes[i] != delivered[j] {
      assert disputes[i] in Elements(disputes) && delivered[j] in Elements(delivered);
    }
  }

  method HasFollowup(rows: seq<Evidence>, customer: nat, ids: seq<nat>, id: nat, expected: Source) returns (found: bool)
    requires Lists(rows, customer, ids) && id < |rows|
    ensures found <==> FollowedUp(rows, customer, id, expected)
  {
    for i := 0 to |ids|
      invariant forall k | 0 <= k < i :: !(rows[ids[k]].key.source == expected && rows[ids[k]].order == rows[id].order
                                           && rows[ids[k]].occurredAt >= rows[id].occurredAt)
    {
      var f := ids[i];
      assert f in ids;
      if rows[f].key.source == expected && rows[f].order == rows[id].order
        && rows[f].occurredAt >= rows[id].occurredAt {
        return true;
      }
    }
    assert forall f: nat :: Current(rows, customer, f) ==> f in ids;
    return false;
  }

  method DetectMissing(
      rows: seq<Evidence>, customer: nat, ids: seq<nat>, now: int, open: set<Description>, flags: seq<Flag>)
    returns (more: seq<Flag>)
    requires Lists(rows, customer, ids) && Sound(rows, customer, now, open, flags)
    ensures Sound(rows, customer, now, open, more) && Descriptions(flags) <= Descriptions(more)
    ensures forall d: Description | d.MissingFollowup? && Violated(rows, customer, now, d) :: IsOpen(open, more, d)
  {
    more := flags;
    for i := 0 to |ids|
      invariant Sound(rows, customer, now, open, more) && Descriptions(flags) <= Descriptions(more)
      invariant forall k | 0 <= k < i && Overdue(rows, customer, now, ids[k]) ::
          var d := MissingFor(rows[ids[k]], ExpectedFollowup(rows[ids[k]].key.source).value.0);
          IsOpen(open, more, d)
    {
      var id := ids[i];
      assert id in ids;
      var followup := ExpectedFollowup(rows[id].key.source);
      if followup.Some? && now > rows[id].occurredAt + followup.value.1 {
        var found := HasFollowup(rows, customer, ids, id, followup.value.0);
        if !found {
          var d := MissingFor(rows[id], followup.value.0);
          assert Overdue(rows, customer, now, id);
          assert Elements([id]) == {id};
          AddKeepsSound(rows, customer, now, open, more, [id], d);
          more := AddFlag(open, more, [id], d);
        }
      }
    }
    forall d: Description | d.MissingFollowup? && Violated(rows, customer, now, d) ensures IsOpen(open, more, d) {
      var cited :| Cites(rows, customer, now, d, cited);
      var id :| cited == {id} && Overdue(rows, customer, now, id)
        && d == MissingFor(rows[id], ExpectedFollowup(rows[id].key.source).value.0);
      assert id in ids;
    }
  }

  method DetectStale(
      rows: seq<Evidence>, customer: nat, ids: seq<nat>, now: int, open: set<Description>, flags: seq<Flag>)
    returns (more: seq<Flag>)
    requires Lists(rows, customer, ids) && Sound(rows, customer, now, open, flags)
    ensures Sound(rows, customer, now, open, more) && Descriptions(flags) <= Descriptions(more)
    ensures forall d: Description | d.NoActivitySince? && Violated(rows, customer, now, d) :: IsOpen(open, more, d)
  {
    hide Sound;
    more := flags;
    assert forall id: nat :: Current(rows, customer, id) ==> id in ids;
    if ids != [] {
      var latest := ids[0];
      assert latest in ids;
      for i := 1 to |ids|
        invariant latest in ids
        invariant forall k | 0 <= k < i :: rows[ids[k]].occurredAt <= rows[latest].occurredAt
      {
        if rows[ids[i]].occurredAt > rows[latest].occurredAt {
          latest := ids[i];
        }
      }
      assert Latest(rows, customer, latest);
      var mostRecent := rows[latest].occurredAt;
      if mostRecent < now - STALE_AFTER {
        var at := (id: nat) => id < |rows| && rows[id].occurredAt == mostRecent;
        var cited := Filter(ids, at);
        FilterMembers(ids, at);
        FilterDistinct(ids, at);
        assert Elements(cited) == set id: nat | id < |rows| && Current(rows, customer, id)
          && rows[id].occurredAt == mostRecent;
        AddKeepsSound(rows, customer, now, open, more, cited, NoActivitySince(mostRecent));
        more := AddFlag(open, more, cited, NoActivitySince(mostRecent));
      }
      forall d: Description | d.NoActivitySince? && Violated(rows, customer, now, d)
        ensures d == NoActivitySince(mostRecent) {
        var id: nat :| Latest(rows, customer, id) && rows[id].occurredAt == d.mostRecent;
      }
    }
  }

  /** One sweep over the current evidence. */
  method Detect(rows: seq<Evidence>, customer: nat, ids: seq<nat>, now: int, open: set<Description>)
    returns (flags: seq<Flag>)
    requires Lists(rows, customer, ids)
    ensures Detects(rows, customer, now, open, flags)
    ensures Exactly(rows, customer, now, open, flags)
  {
    hide Detects, Exactly;
    flags := Sweep(rows, customer, ids, now, open);
    DetectsExactly(rows, customer, now, open, flags);
  }

  /** The five detectors, one after the other. */
  method Sweep(rows: seq<Evidence>, customer: nat, ids: seq<nat>, now: int, open: set<Description>)
    returns (flags: seq<Flag>)
    requires Lists(rows, customer, ids)
    ensures Detects(rows, customer, now, open, flags)
  {
    flags := DetectDuplicates(rows, customer, ids, now, open, []);
    var orders, groups := GroupByOrder(rows, ids, AnyFulfillment);
    flags := DetectConflicts(rows, customer, ids, now, open, flags, orders, groups);
    flags := DetectDisputes(rows, customer, ids, now, open, flags, orders, groups);
    flags := DetectMissing(rows, customer, ids, now, open, flags);
    flags := DetectStale(rows, customer, ids, now, open, flags);
  }

  // ----- What detection guarantees -----

  lemma SameRows(rows: seq<Evidence>, customer: nat, order: Option<nat>)
    ensures forall id: nat :: Current(rows, customer, id) <==> Usable(rows, customer, id)
    ensures Of(rows, customer, CapturedPayment, order) == Captures(rows, customer, order)
    ensures Of(rows, customer, TerminalFulfillment, order) == Endings(rows, customer, order)
    ensures Of(rows, customer, DeliveredFulfillment, order) == Arrivals(rows, customer, order)
    ensures Of(rows, customer, Dispute, order) == Complaints(rows, customer, order)
  {}

  lemma SameWindows(rows: seq<Evidence>, customer: nat, now: int, id: nat, d: Description)
    requires d.MissingFollowup?
    ensures Overdue(rows, customer, now, id) && d == MissingFor(rows[id], ExpectedFollowup(rows[id].key.source).value.0)
            <==> LacksFollowup(rows, customer, now, id, d.expected, d.after, d.externalRef)
  {
    SameRows(rows, customer, None);
  }

  lemma SameNewest(rows: seq<Evidence>, customer: nat, id: nat)
    ensures Latest(rows, customer, id) <==> Newest(rows, customer, id)
  {
    SameRows(rows, customer, None);
  }

  /** What detection takes as a reason is what the rules call right. */
  lemma RightIsCited(rows: seq<Evidence>, customer: nat, now: int, t: FlagType, d: Description, cited: set<nat>)
    ensures IsRight(rows, customer, now, t, d, cited) <==> t == TypeOf(d) && Cites(rows, customer, now, d, cited)
  {
    hide Of, Captures, Endings, Arrivals, Complaints, Overdue, LacksFollowup, Latest, Newest, ExpectedFollowup;
    match d
    case CapturedTwice(_, order) => SameRows(rows, customer, order);
    case ConflictingOutcomes(order, _) => SameRows(rows, customer, order);
    case DisputedDelivery(order) => SameRows(rows, customer, order);
    case MissingFollowup(_, _, _) =>
      forall id: nat { SameWindows(rows, customer, now, id, d); }
    case NoActivitySince(_) =>
      SameRows(rows, customer, None);
      forall id: nat { SameNewest(rows, customer, id); }
  }

  /** Detection follows the rules exactly. */
  lemma DetectsExactly(rows: seq<Evidence>, customer: nat, now: int, open: set<Description>, flags: seq<Flag>)
    ensures Detects(rows, customer, now, open, flags) <==> Exactly(rows, customer, now, open, flags)
  {
    hide Cites, IsRight;
    forall t, d, cited { RightIsCited(rows, customer, now, t, d, cited); }
    assert forall d :: Violated(rows, customer, now, d) <==> Holds(rows, customer, now, d) by {
      forall d ensures Violated(rows, customer, now, d) <==> Holds(rows, customer, now, d) {
        if Violated(rows, customer, now, d) {
          var cited :| Cites(rows, customer, now, d, cited);
          assert IsRight(rows, customer, now, TypeOf(d), d, cited);
        }
      }
    }
    assert forall d :: d in Descriptions(flags) <==> exists k :: 0 <= k < |flags| && flags[k].description == d;
  }

  /** The open descriptions afterwards are the old ones and exactly the violated conditions. */
  lemma DetectionExact(
    rows: seq<Evidence>, customer: nat, now: int, open: set<Description>, flags: seq<Flag>, d: Description)
    requires Detects(rows, customer, now, open, flags)
    ensures d in open + Descriptions(flags) <==> d in open || Violated(rows, customer, now, d)
  {
    if d in Descriptions(flags) {
      var f :| f in flags && f.description == d;
      var k :| 0 <= k < |flags| && flags[k] == f;
      assert Justified(rows, customer, now, flags[k]);
    }
  }

  /** Open after a sweep. */
  predicate Raised(before: set<Description>, flags: seq<Flag>, d: Description) {
    d in before || exists k :: 0 <= k < |flags| && flags[k].description == d
  }

  lemma RaisedIff(
    rows: seq<Evidence>, customer: nat, now: int, before: set<Description>, flags: seq<Flag>, d: Description)
    requires Exactly(rows, customer, now, before, flags)
    ensures Raised(before, flags, d) <==> d in before || Holds(rows, customer, now, d)
  {
    hide IsRight;
  }

  lemma MissingHoldsIff(rows: seq<Evidence>, customer: nat, now: int, expected: Source, after: Source, externalRef: nat)
    ensures Holds(rows, customer, now, MissingFollowup(expected, after, externalRef)) <==>
            exists id: nat :: LacksFollowup(rows, customer, now, id, expected, after, externalRef)
  {
    hide LacksFollowup;
    if id: nat :| LacksFollowup(rows, customer, now, id, expected, after, externalRef) {
      assert IsRight(rows, customer, now, Missing, MissingFollowup(expected, after, externalRef), {id});
    }
  }

  /**
   After a sweep, a missing follow-up is open exactly if it was before or some row of that source and
   reference is left without it past its window; only three sources wait, each for one other.
   */
  lemma MissingExactly(
    rows: seq<Evidence>, customer: nat, now: int, before: set<Description>, flags: seq<Flag>,
    expected: Source, after: Source, externalRef: nat)
    requires Detects(rows, customer, now, before, flags)
    ensures Raised(before, flags, MissingFollowup(expected, after, externalRef)) <==>
            || MissingFollowup(expected, after, externalRef) in before
            || exists id: nat ::
                 && Unfollowed(rows, customer, id, expected)
                 && rows[id].key.source == after
                 && rows[id].key.externalRef == externalRef
                 && (|| (after == Order && expected == Payment && now > rows[id].occurredAt + 3_600)
                     || (after == Payment && expected == FulfillmentUpdate && now > rows[id].occurredAt + 172_800)
                     || (after == Return && expected == Payment && now > rows[id].occurredAt + 259_200))
  {
    hide Detects, Exactly, Holds, Raised;
    DetectsExactly(rows, customer, now, before, flags);
    RaisedIff(rows, customer, now, before, flags, MissingFollowup(expected, after, externalRef));
    MissingHoldsIff(rows, customer, now, expected, after, externalRef);
    assert forall id: nat :: Unfollowed(rows, customer, id, expected) ==>
        (LacksFollowup(rows, customer, now, id, expected, after, externalRef) <==>
          && rows[id].key.source == after
          && rows[id].key.externalRef == externalRef
          && OutOfTime(expected, after, now - rows[id].occurredAt));
  }

  /**
   The windows, row by row: for a row whose reference no other current row of its source shares and that
   has not been flagged yet, the follow-up it waits for is flagged exactly once its time is up.
   */
  lemma WindowsAreExact(
    rows: seq<Evidence>, customer: nat, now: int, before: set<Description>, flags: seq<Flag>, id: nat)
    requires Detects(rows, customer, now, before, flags)
    requires Usable(rows, customer, id)
    requires forall j: nat | Usable(rows, customer, j) && rows[j].key.source == rows[id].key.source
               && rows[j].key.externalRef == rows[id].key.externalRef :: j == id
    requires forall next :: MissingFollowup(next, rows[id].key.source, rows[id].key.externalRef) !in before
    ensures var row := rows[id];
            var ref := row.key.externalRef;
            && (row.key.source == Order && Unfollowed(rows, customer, id, Payment) ==>
                  (Raised(before, flags, MissingFollowup(Payment, Order, ref)) <==> now > row.occurredAt + 3_600))
            && (row.key.source == Payment && Unfollowed(rows, customer, id, FulfillmentUpdate) ==>
                  (Raised(before, flags, MissingFollowup(FulfillmentUpdate, Payment, ref)) <==>
                   now > row.occurredAt + 172_800))
            && (row.key.source == Return && Unfollowed(rows, customer, id, Payment) ==>
                  (Raised(before, flags, MissingFollowup(Payment, Return, ref)) <==> now > row.occurredAt + 259_200))
            && (forall next | Raised(before, flags, MissingFollowup(next, row.key.source, ref)) ::
                  && Unfollowed(rows, customer, id, next)
                  && (row.key.source, next) in {(Order, Payment), (Payment, FulfillmentUpdate), (Return, Payment)})
  {
    hide Detects, Raised;
    var source, ref := rows[id].key.source, rows[id].key.externalRef;
    forall next
      ensures Raised(before, flags, MissingFollowup(next, source, ref)) <==>
              Unfollowed(rows, customer, id, next) && OutOfTime(next, source, now - rows[id].occurredAt)
    {
      MissingExactly(rows, customer, now, before, flags, next, source, ref);
    }
  }

  lemma StaleHoldsIff(rows: seq<Evidence>, customer: nat, now: int, mostRecent: int)
    ensures Holds(rows, customer, now, NoActivitySince(mostRecent)) <==>
            && now > mostRecent + 172_800
            && exists id: nat :: Newest(rows, customer, id) && rows[id].occurredAt == mostRecent
  {
    var cited := set id: nat | id < |rows| && Usable(rows, customer, id) && rows[id].occurredAt == mostRecent;
    if now > mostRecent + 172_800 && exists id: nat :: Newest(rows, customer, id) && rows[id].occurredAt == mostRecent {
      assert IsRight(rows, customer, now, Stale, NoActivitySince(mostRecent), cited);
    }
  }

  /** Staleness: exactly when the newest row lies more than two days back. */
  lemma StalenessIsExact(
    rows: seq<Evidence>, customer: nat, now: int, before: set<Description>, flags: seq<Flag>, id: nat)
    requires Detects(rows, customer, now, before, flags)
    requires Newest(rows, customer, id) && NoActivitySince(rows[id].occurredAt) !in before
    ensures Raised(before, flags, NoActivitySince(rows[id].occurredAt)) <==> now > rows[id].occurredAt + 172_800
    ensures forall t | t != rows[id].occurredAt && NoActivitySince(t) !in before ::
              !Raised(before, flags, NoActivitySince(t))
  {
    hide Detects, Exactly, Raised, Holds;
    DetectsExactly(rows, customer, now, before, flags);
    forall t
      ensures Raised(before, flags, NoActivitySince(t)) <==>
              NoActivitySince(t) in before || Holds(rows, customer, now, NoActivitySince(t))
      ensures Holds(rows, customer, now, NoActivitySince(t)) <==>
              && now > t + 172_800
              && exists j: nat :: Newest(rows, customer, j) && rows[j].occurredAt == t
    {
      RaisedIff(rows, customer, now, before, flags, NoActivitySince(t));
      StaleHoldsIff(rows, customer, now, t);
    }
  }

  /** On fixed evidence, a condition once violated stays violated. */
  lemma ViolationPersists(rows: seq<Evidence>, customer: nat, early: int, late: int, d: Description)
    requires early <= late && Violated(rows, customer, early, d)
    ensures Violated(rows, customer, late, d)
  {
    var cited :| Cites(rows, customer, early, d, cited);
    if d.MissingFollowup? {
      var id :| cited == {id} && Overdue(rows, customer, early, id)
        && d == MissingFor(rows[id], ExpectedFollowup(rows[id].key.source).value.0);
      assert Overdue(rows, customer, late, id);
    }
    assert Cites(rows, customer, late, d, cited);
  }

  /** Sweeping at an earlier time first does not change which descriptions end up open. */
  lemma SweepFrequencyIrrelevant(
    rows: seq<Evidence>, customer: nat, open: set<Description>, early: int, late: int,
    first: seq<Flag>, second: seq<Flag>, once: seq<Flag>)
    requires early <= late
    requires Detects(rows, customer, early, open, first)
    requires Detects(rows, customer, late, open + Descriptions(first), second)
    requires Detects(rows, customer, late, open, once)
    ensures open + Descriptions(first) + Descriptions(second) == open + Descriptions(once)
  {
    forall d: Description
      ensures d in open + Descriptions(first) + Descriptions(second) <==> d in open + Descriptions(once)
    {
      DetectionExact(rows, customer, early, open, first, d);
      DetectionExact(rows, customer, late, open + Descriptions(first), second, d);
      DetectionExact(rows, customer, late, open, once, d);
      if Violated(rows, customer, early, d) {
        ViolationPersists(rows, customer, early, late, d);
      }
    }
  }

  /** Sweeping again at the same time raises nothing. */
  lemma SecondSweepIsSilent(
    rows: seq<Evidence>, customer: nat, now: int, open: set<Description>, first: seq<Flag>, second: seq<Flag>)
    requires Detects(rows, customer, now, open, first)
    requires Detects(rows, customer, now, open + Descriptions(first), second)
    ensures second == []
  {
    assert second != [] ==> second[0] in second;
    SweepFrequencyIrrelevant(rows, customer, open, now, now, first, second, first);
    assert Descriptions(second) <= open + Descriptions(first);
    assert Descriptions(second) !! open + Descriptions(first);
  }
}
