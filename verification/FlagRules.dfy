/**
 What each flag says, in terms of the rows alone: the windows, the threshold, the statuses and the
 dispositions that count. Detection is proved against these rules.
 */
module FlagRules {
  import opened Domain
  import opened Sequences

  predicate Usable(rows: seq<Evidence>, customer: nat, id: nat) {
    id < |rows| && rows[id].customer == customer && !rows[id].superseded && rows[id].duplicateOf == None
  }

  /** The payments captured for an order. */
  function Captures(rows: seq<Evidence>, customer: nat, order: Option<nat>): set<nat> {
    set id: nat | id < |rows| && Usable(rows, customer, id) && rows[id].order == order
                  && rows[id].key.source == Payment && rows[id].payload.status == Captured
  }

  /** The fulfilment updates that end an order's delivery one way or another. */
  function Endings(rows: seq<Evidence>, customer: nat, order: Option<nat>): set<nat> {
    set id: nat | id < |rows| && Usable(rows, customer, id) && rows[id].order == order
                  && rows[id].key.source == FulfillmentUpdate
                  && rows[id].payload.status in {Delivered, LostInTransit, ReturnedToSender, DeliveryFailed}
  }

  function Arrivals(rows: seq<Evidence>, customer: nat, order: Option<nat>): set<nat> {
    set id: nat | id < |rows| && Usable(rows, customer, id) && rows[id].order == order
                  && rows[id].key.source == FulfillmentUpdate && rows[id].payload.status == Delivered
  }

  /** What the customer told the contact center against an order. */
  function Complaints(rows: seq<Evidence>, customer: nat, order: Option<nat>): set<nat> {
    set id: nat | id < |rows| && Usable(rows, customer, id) && rows[id].order == order
                  && rows[id].key.source == ContactCenterRecord
                  && rows[id].payload.disposition in {ItemNotReceived, WrongItem, DisputesDelivery, UnauthorizedCharge}
  }

  /** Nothing of the expected source is on record for the same order from the row's time on. */
  ghost predicate Unfollowed(rows: seq<Evidence>, customer: nat, id: nat, expected: Source) {
    && Usable(rows, customer, id)
    && forall f: nat | Usable(rows, customer, f) && rows[f].key.source == expected && rows[f].order == rows[id].order ::
        rows[f].occurredAt < rows[id].occurredAt
  }

  /**
   An order waits an hour for its payment, a payment two days for its fulfilment and a return three
   days for its refund; nothing else waits for anything.
   */
  predicate OutOfTime(expected: Source, after: Source, waited: int) {
    || (after == Order && expected == Payment && waited > 3_600)
    || (after == Payment && expected == FulfillmentUpdate && waited > 172_800)
    || (after == Return && expected == Payment && waited > 259_200)
  }

  ghost predicate Newest(rows: seq<Evidence>, customer: nat, id: nat) {
    Usable(rows, customer, id) && forall j: nat | Usable(rows, customer, j) :: rows[j].occurredAt <= rows[id].occurredAt
  }

  /** The row a missing follow-up is about. */
  ghost predicate LacksFollowup(
    rows: seq<Evidence>, customer: nat, now: int, id: nat, expected: Source, after: Source, externalRef: nat)
  {
    && Unfollowed(rows, customer, id, expected)
    && rows[id].key.source == after
    && rows[id].key.externalRef == externalRef
    && OutOfTime(expected, after, now - rows[id].occurredAt)
  }

  /** A flag of this type, with this description, citing these rows, is right at time `now`. */
  ghost predicate IsRight(
    rows: seq<Evidence>, customer: nat, now: int, flagType: FlagType, d: Description, cited: set<nat>)
  {
    match d
    case CapturedTwice(captures, order) =>
      && flagType == Duplicate
      && cited == Captures(rows, customer, order)
      && captures == |cited|
      && captures >= 2
    case ConflictingOutcomes(order, outcomes) =>
      && flagType == Contradictory
      && cited == Endings(rows, customer, order)
      && outcomes == (set id | id in Endings(rows, customer, order) :: rows[id].payload.status)
      && |outcomes| >= 2
    case DisputedDelivery(order) =>
      && flagType == Contradictory
      && Complaints(rows, customer, order) != {}
      && Arrivals(rows, customer, order) != {}
      && cited == Complaints(rows, customer, order) + Arrivals(rows, customer, order)
    case MissingFollowup(expected, after, externalRef) =>
      && flagType == Missing
      && exists id :: cited == {id} && LacksFollowup(rows, customer, now, id, expected, after, externalRef)
    case NoActivitySince(mostRecent) =>
      && flagType == Stale
      && now - mostRecent > 172_800
      && (exists id: nat :: Newest(rows, customer, id) && rows[id].occurredAt == mostRecent)
      && cited == (set id: nat | id < |rows| && Usable(rows, customer, id) && rows[id].occurredAt == mostRecent)
  }

  /** The sentence is true at time `now`. */
  ghost predicate Holds(rows: seq<Evidence>, customer: nat, now: int, d: Description) {
    exists flagType, cited :: IsRight(rows, customer, now, flagType, d, cited)
  }

  /**
   The flags raised over what was already open: each is right and new, each row it cites is cited once,
   and afterwards exactly the sentences open before or true now are open.
   */
  ghost predicate Exactly(rows: seq<Evidence>, customer: nat, now: int, before: set<Description>, flags: seq<Flag>) {
    && (forall k | 0 <= k < |flags| ::
          && IsRight(rows, customer, now, flags[k].flagType, flags[k].description, Elements(flags[k].related))
          && NoDuplicates(flags[k].related)
          && flags[k].description !in before)
    && (forall k, l | 0 <= k < l < |flags| :: flags[k].description != flags[l].description)
    && (forall d | Holds(rows, customer, now, d) && d !in before ::
          exists k :: 0 <= k < |flags| && flags[k].description == d)
  }
}
