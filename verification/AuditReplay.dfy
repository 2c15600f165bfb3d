/** Reconstructing a case by folding its audit log. */
module AuditReplay {
  import opened Domain
  import opened Sequences

  datatype Decision = Decision(granted: bool, user: nat)

  /** What replay reconstructs, dictionaries keyed by row id; an action carries its event history. */
  datatype Snapshot = Snapshot(
    stage: Stage,
    hypotheses: map<nat, (Category, nat)>,
    actions: map<nat, seq<ActionEvent>>,
    approvals: map<nat, Decision>)

  const BLANK := Snapshot(IssueReported, map[], map[], map[])

  /** One entry of the trail. */
  function Fold1(r: Snapshot, e: Event): Snapshot {
    match e
    case StageAdvanced(_, to) => r.(stage := to)
    case ReevaluationTriggered(_, _) => r.(stage := FailureLocated)
    case HypothesisCreated(h, category, confidence) => r.(hypotheses := r.hypotheses[h := (category, confidence)])
    case ActionLogged(a, event) =>
      r.(actions := r.actions[a := (if a in r.actions then r.actions[a] else []) + [event]])
    case ApprovalDecided(p, granted, user, _) => r.(approvals := r.approvals[p := Decision(granted, user)])
    case _ => r
  }

  /** Folding the entries of one case, oldest first. */
  function Replayed(log: seq<Entry>, caseId: nat): Snapshot {
    if log == [] then BLANK
    else
      var r := Replayed(log[..|log| - 1], caseId);
      if log[|log| - 1].owner == Some(caseId) then Fold1(r, log[|log| - 1].event) else r
  }

  lemma ReplayedSnoc(log: seq<Entry>, e: Entry, caseId: nat)
    ensures Replayed(log + [e], caseId) ==
            if e.owner == Some(caseId) then Fold1(Replayed(log, caseId), e.event) else Replayed(log, caseId)
  {
    assert (log + [e])[..|log|] == log;
  }

  // ----- Selecting and ordering the trail -----

  /** The two timestamps a row carries: when it occurred and when it was created. */
  datatype Stamp = Stamp(occurred: int, created: int)

  predicate Before(a: Stamp, b: Stamp) {
    a.occurred < b.occurred || (a.occurred == b.occurred && a.created < b.created)
  }

  /** Rows are stamped in write order, and no two alike. */
  ghost predicate Ticking(stamps: seq<Stamp>) {
    forall i, j | 0 <= i < j < |stamps| :: Before(stamps[i], stamps[j])
  }

  predicate Selected(log: seq<Entry>, stamps: seq<Stamp>, caseId: nat, asOf: Option<int>, i: nat) {
    && i < |log| == |stamps|
    && log[i].owner == Some(caseId)
    && (asOf.Some? ==> stamps[i].occurred <= asOf.value)
  }

  /** What the trail query may answer: the selected rows, each once, ordered by their stamps. */
  ghost predicate AnswersTrail(log: seq<Entry>, stamps: seq<Stamp>, caseId: nat, asOf: Option<int>, ids: seq<nat>) {
    && NoDuplicates(ids)
    && (forall i: nat :: i in ids <==> Selected(log, stamps, caseId, asOf, i))
    && (forall k | 0 <= k < |ids| :: ids[k] < |stamps|)
    && (forall k, l | 0 <= k < l < |ids| :: !Before(stamps[ids[l]], stamps[ids[k]]))
  }

  /** The case's own rows are stamped in write order, and no two of them alike. */
  ghost predicate TicksFor(log: seq<Entry>, stamps: seq<Stamp>, caseId: nat, asOf: Option<int>) {
    forall i, j | 0 <= i < j && Selected(log, stamps, caseId, asOf, i) && Selected(log, stamps, caseId, asOf, j) ::
      Before(stamps[i], stamps[j])
  }

  lemma TickingTicksFor(log: seq<Entry>, stamps: seq<Stamp>, caseId: nat)
    requires |log| == |stamps| && Ticking(stamps)
    ensures TicksFor(log, stamps, caseId, None)
  {}

  /** How much of the log had been written by `asOf`, up to the case's last row then. */
  function WrittenBy(log: seq<Entry>, stamps: seq<Stamp>, caseId: nat, asOf: Option<int>): (n: nat)
    requires |log| == |stamps|
    ensures n <= |log|
    ensures n > 0 ==> Selected(log, stamps, caseId, asOf, n - 1)
    ensures forall i: nat | n <= i < |log| :: !Selected(log, stamps, caseId, asOf, i)
  {
    var m := |log| - 1;
    if log == [] then 0
    else if Selected(log, stamps, caseId, asOf, m) then |log|
    else
      var n := WrittenBy(log[..m], stamps[..m], caseId, asOf);
      assert forall i: nat | i < m :: Selected(log, stamps, caseId, asOf, i) <==>
        Selected(log[..m], stamps[..m], caseId, asOf, i);
      n
  }

  lemma WrittenByIsPrefix(log: seq<Entry>, stamps: seq<Stamp>, caseId: nat, asOf: Option<int>)
    requires |log| == |stamps| && TicksFor(log, stamps, caseId, None)
    ensures forall i: nat | i < |log| ::
              Selected(log, stamps, caseId, asOf, i) <==>
                log[i].owner == Some(caseId) && i < WrittenBy(log, stamps, caseId, asOf)
  {
    var n := WrittenBy(log, stamps, caseId, asOf);
    forall i: nat | i < n && log[i].owner == Some(caseId) ensures Selected(log, stamps, caseId, asOf, i) {
      assert Selected(log, stamps, caseId, None, i) && Selected(log, stamps, caseId, None, n - 1);
    }
  }

  function Events(log: seq<Entry>, ids: seq<nat>): seq<Event>
    requires forall k | 0 <= k < |ids| :: ids[k] < |log|
  {
    seq(|ids|, k requires 0 <= k < |ids| => log[ids[k]].event)
  }

  function FoldAll(events: seq<Event>): Snapshot {
    if events == [] then BLANK else Fold1(FoldAll(events[..|events| - 1]), events[|events| - 1])
  }

  /** Adding a row to an ordered answer, before any row of equal or later stamps. */
  function Placed(ids: seq<nat>, stamps: seq<Stamp>, i: nat): seq<nat>
    requires i < |stamps|
  {
    var at := First(ids, (id: nat) => id < |stamps| && !Before(stamps[id], stamps[i]));
    var k := if at.Some? then at.value else |ids|;
    ids[..k] + [i] + ids[k..]
  }

  /** Distinct ids below a bound, ordered by their stamps. */
  ghost predicate Ordered(ids: seq<nat>, stamps: seq<Stamp>, n: nat) {
    && NoDuplicates(ids)
    && (forall k | 0 <= k < |ids| :: ids[k] < n <= |stamps|)
    && (forall k, l | 0 <= k < l < |ids| :: !Before(stamps[ids[l]], stamps[ids[k]]))
  }

  lemma PlacedIsOrdered(ids: seq<nat>, stamps: seq<Stamp>, i: nat)
    requires Ordered(ids, stamps, i) && i < |stamps|
    ensures var r := Placed(ids, stamps, i); Ordered(r, stamps, i + 1) && forall x :: x in r <==> x in ids || x == i
  {
    hide First, Before;
    var at := First(ids, (id: nat) => id < |stamps| && !Before(stamps[id], stamps[i]));
    var k := if at.Some? then at.value else |ids|;
    forall m | k <= m < |ids| ensures !Before(stamps[ids[m]], stamps[i]) {
      if k < m {
        NotBeforeEither(stamps[i], stamps[ids[k]], stamps[ids[m]]);
      }
    }
    forall m | 0 <= m < k ensures !Before(stamps[i], stamps[ids[m]]) {
      BeforeOneWay(stamps[ids[m]], stamps[i]);
    }
    InsertedAt(ids, stamps, i, k);
  }

  lemma NotBeforeEither(a: Stamp, b: Stamp, c: Stamp)
    requires !Before(b, a) && !Before(c, b)
    ensures !Before(c, a)
  {}

  lemma BeforeOneWay(a: Stamp, b: Stamp)
    requires Before(a, b)
    ensures !Before(b, a)
  {}

  lemma InsertedAt(ids: seq<nat>, stamps: seq<Stamp>, i: nat, k: nat)
    requires Ordered(ids, stamps, i) && i < |stamps| && k <= |ids|
    requires forall m | k <= m < |ids| :: !Before(stamps[ids[m]], stamps[i])
    requires forall m | 0 <= m < k :: !Before(stamps[i], stamps[ids[m]])
    ensures var r := ids[..k] + [i] + ids[k..]; Ordered(r, stamps, i + 1) && forall x :: x in r <==> x in ids || x == i
  {
    hide Before;
    var r := ids[..k] + [i] + ids[k..];
    assert ids == ids[..k] + ids[k..];
    forall l, m | 0 <= l < m < |r| ensures r[l] != r[m] && !Before(stamps[r[m]], stamps[r[l]]) {
      InsertedPair(ids, stamps, i, k, l, m);
    }
    forall m | 0 <= m < |r| ensures r[m] < i + 1 {
      assert r[m] == Shifted(ids, i, k, m);
    }
  }

  /** What is at a place after inserting i before the k-th id. */
  function Shifted(ids: seq<nat>, i: nat, k: nat, m: nat): nat
    requires k <= |ids| && m <= |ids|
  {
    if m < k then ids[m] else if m == k then i else ids[m - 1]
  }

  lemma InsertedPair(ids: seq<nat>, stamps: seq<Stamp>, i: nat, k: nat, l: nat, m: nat)
    requires Ordered(ids, stamps, i) && i < |stamps| && k <= |ids| && l < m <= |ids|
    requires forall n | k <= n < |ids| :: !Before(stamps[ids[n]], stamps[i])
    requires forall n | 0 <= n < k :: !Before(stamps[i], stamps[ids[n]])
    ensures var x, y := Shifted(ids, i, k, l), Shifted(ids, i, k, m);
            && (ids[..k] + [i] + ids[k..])[l] == x && (ids[..k] + [i] + ids[k..])[m] == y
            && x != y && x < |stamps| && y < |stamps| && !Before(stamps[y], stamps[x])
  {
    hide Before;
  }

  /** One answer the query may give: later rows go before earlier ones with the same stamps. */
  function LatestFirst(log: seq<Entry>, stamps: seq<Stamp>, caseId: nat, asOf: Option<int>, n: nat): seq<nat>
    requires n <= |log| == |stamps|
  {
    if n == 0 then []
    else
      var ids := LatestFirst(log, stamps, caseId, asOf, n - 1);
      if Selected(log, stamps, caseId, asOf, n - 1) then Placed(ids, stamps, n - 1) else ids
  }

  lemma {:induction false} LatestFirstIsOrdered(
      log: seq<Entry>, stamps: seq<Stamp>, caseId: nat, asOf: Option<int>, n: nat)
    requires n <= |log| == |stamps|
    ensures var ids := LatestFirst(log, stamps, caseId, asOf, n);
            Ordered(ids, stamps, n) && forall i: nat :: i in ids <==> i < n && Selected(log, stamps, caseId, asOf, i)
  {
    hide Placed, Selected, Before;
    if n > 0 {
      LatestFirstIsOrdered(log, stamps, caseId, asOf, n - 1);
      PlacedIsOrdered(LatestFirst(log, stamps, caseId, asOf, n - 1), stamps, n - 1);
    }
  }

  lemma LatestFirstAnswers(log: seq<Entry>, stamps: seq<Stamp>, caseId: nat, asOf: Option<int>)
    requires |log| == |stamps|
    ensures AnswersTrail(log, stamps, caseId, asOf, LatestFirst(log, stamps, caseId, asOf, |log|))
  {
    LatestFirstIsOrdered(log, stamps, caseId, asOf, |log|);
  }

  ghost predicate InWriteOrder(ids: seq<nat>) {
    forall k, l | 0 <= k < l < |ids| :: ids[k] < ids[l]
  }

  /** A row that another follows neither in time nor in write order can come after it. */
  lemma {:induction false} LatestFirstMisorders(
      log: seq<Entry>, stamps: seq<Stamp>, caseId: nat, asOf: Option<int>, n: nat, i: nat, j: nat)
    requires i < j < n <= |log| == |stamps| && !Before(stamps[i], stamps[j])
    requires Selected(log, stamps, caseId, asOf, i) && Selected(log, stamps, caseId, asOf, j)
    ensures exists k, l :: 0 <= k < l < |LatestFirst(log, stamps, caseId, asOf, n)|
              && LatestFirst(log, stamps, caseId, asOf, n)[k] == j && LatestFirst(log, stamps, caseId, asOf, n)[l] == i
  {
    hide LatestFirst, Selected;
    var ids, m := LatestFirst(log, stamps, caseId, asOf, n - 1), n - 1;
    LatestFirstIsOrdered(log, stamps, caseId, asOf, m);
    LatestFirstStep(log, stamps, caseId, asOf, n);
    if j == m {
      assert i in ids;
      var x :| 0 <= x < |ids| && ids[x] == i;
      PlacedBefore(ids, stamps, m, x);
    } else {
      LatestFirstMisorders(log, stamps, caseId, asOf, m, i, j);
      var k, l :| 0 <= k < l < |ids| && ids[k] == j && ids[l] == i;
      if Selected(log, stamps, caseId, asOf, m) {
        PlacedKeeps(ids, stamps, m, k, l);
      }
    }
  }

  lemma LatestFirstStep(log: seq<Entry>, stamps: seq<Stamp>, caseId: nat, asOf: Option<int>, n: nat)
    requires 0 < n <= |log| == |stamps|
    ensures LatestFirst(log, stamps, caseId, asOf, n) ==
              var ids := LatestFirst(log, stamps, caseId, asOf, n - 1);
              if Selected(log, stamps, caseId, asOf, n - 1) then Placed(ids, stamps, n - 1) else ids
  {}

  lemma PlacedBefore(ids: seq<nat>, stamps: seq<Stamp>, j: nat, x: nat)
    requires Ordered(ids, stamps, j) && j < |stamps| && x < |ids| && !Before(stamps[ids[x]], stamps[j])
    ensures exists k, l ::
            0 <= k < l < |Placed(ids, stamps, j)| && Placed(ids, stamps, j)[k] == j
            && Placed(ids, stamps, j)[l] == ids[x]
  {
    var r := Placed(ids, stamps, j);
    var at := First(ids, (id: nat) => id < |stamps| && !Before(stamps[id], stamps[j]));
    assert at.Some? && at.value <= x;
    assert r[at.value] == j && r[x + 1] == ids[x];
  }

  lemma PlacedKeeps(ids: seq<nat>, stamps: seq<Stamp>, i: nat, k: nat, l: nat)
    requires i < |stamps| && k < l < |ids|
    ensures exists x, y ::
            0 <= x < y < |Placed(ids, stamps, i)| && Placed(ids, stamps, i)[x] == ids[k]
            && Placed(ids, stamps, i)[y] == ids[l]
  {
    var r := Placed(ids, stamps, i);
    var at := First(ids, (id: nat) => id < |stamps| && !Before(stamps[id], stamps[i]));
    var p := if at.Some? then at.value else |ids|;
    assert r[if k < p then k else k + 1] == ids[k] && r[if l < p then l else l + 1] == ids[l];
  }

  /**
   Every answer the query may give is in the order of writing if and only if the case's selected
   rows were stamped in that order, no two of them alike.
   */
  lemma TrailInWriteOrderIff(log: seq<Entry>, stamps: seq<Stamp>, caseId: nat, asOf: Option<int>)
    requires |log| == |stamps|
    ensures (forall ids | AnswersTrail(log, stamps, caseId, asOf, ids) :: InWriteOrder(ids)) <==>
            TicksFor(log, stamps, caseId, asOf)
  {
    hide Before;
    if TicksFor(log, stamps, caseId, asOf) {
      forall ids | AnswersTrail(log, stamps, caseId, asOf, ids) ensures InWriteOrder(ids) {
        TrailInWriteOrder(log, stamps, caseId, asOf, ids);
      }
    } else {
      var i, j :| 0 <= i < j && Selected(log, stamps, caseId, asOf, i) && Selected(log, stamps, caseId, asOf, j)
        && !Before(stamps[i], stamps[j]);
      LatestFirstAnswers(log, stamps, caseId, asOf);
      LatestFirstMisorders(log, stamps, caseId, asOf, |log|, i, j);
    }
  }

  lemma TrailInWriteOrder(log: seq<Entry>, stamps: seq<Stamp>, caseId: nat, asOf: Option<int>, ids: seq<nat>)
    requires |log| == |stamps| && TicksFor(log, stamps, caseId, asOf) && AnswersTrail(log, stamps, caseId, asOf, ids)
    ensures InWriteOrder(ids)
  {
    hide Selected;
    forall k, l | 0 <= k < l < |ids| ensures ids[k] < ids[l] {
      assert ids[k] in ids && ids[l] in ids;
    }
  }

  /** The ids of the case's rows among the first n, increasing. */
  ghost predicate TrailUpTo(log: seq<Entry>, caseId: nat, n: nat, ids: seq<nat>) {
    && n <= |log|
    && (forall k | 0 <= k < |ids| :: ids[k] < n)
    && (forall k, l | 0 <= k < l < |ids| :: ids[k] < ids[l])
    && (forall i: nat :: i in ids <==> i < n && log[i].owner == Some(caseId))
  }

  lemma DropLast(log: seq<Entry>, caseId: nat, n: nat, ids: seq<nat>)
    requires n > 0 && TrailUpTo(log, caseId, n, ids) && log[n - 1].owner == Some(caseId)
    ensures ids != [] && ids[|ids| - 1] == n - 1
    ensures TrailUpTo(log, caseId, n - 1, ids[..|ids| - 1])
  {
    var m, last := n - 1, |ids| - 1;
    assert m in ids;
    var k :| 0 <= k < |ids| && ids[k] == m;
    assert k == last;
    var front := ids[..last];
    assert ids == front + [m];
    forall i: nat | i in front ensures i < m && log[i].owner == Some(caseId) {
      assert i in ids;
    }
    forall i: nat | i < m && log[i].owner == Some(caseId) ensures i in front {
      assert i in ids;
    }
  }

  /** Folding the case's rows among the first n is folding that prefix of the log. */
  lemma {:induction false} FoldOfPrefix(log: seq<Entry>, caseId: nat, n: nat, ids: seq<nat>)
    requires TrailUpTo(log, caseId, n, ids)
    ensures FoldAll(Events(log, ids)) == Replayed(log[..n], caseId)
    decreases n
  {
    hide Fold1;
    if n == 0 {
      assert Events(log, ids) == [];
    } else {
      assert log[..n][..n - 1] == log[..n - 1];
      if log[n - 1].owner == Some(caseId) {
        DropLast(log, caseId, n, ids);
        FoldOfPrefix(log, caseId, n - 1, ids[..|ids| - 1]);
        assert Events(log, ids)[..|ids| - 1] == Events(log, ids[..|ids| - 1]);
      } else {
        FoldOfPrefix(log, caseId, n - 1, ids);
      }
    }
  }

  /**
   When the case's rows were stamped in write order: for any `asOf`, folding whatever the ordered
   query answers, hence the trail, is folding the prefix of the log written by then.
   */
  lemma TrailFoldsPrefix(log: seq<Entry>, stamps: seq<Stamp>, caseId: nat, asOf: Option<int>, ids: seq<nat>)
    requires |log| == |stamps| && TicksFor(log, stamps, caseId, None) && AnswersTrail(log, stamps, caseId, asOf, ids)
    ensures FoldAll(Events(log, ids)) == Replayed(log[..WrittenBy(log, stamps, caseId, asOf)], caseId)
  {
    var n := WrittenBy(log, stamps, caseId, asOf);
    WrittenByIsPrefix(log, stamps, caseId, asOf);
    assert TicksFor(log, stamps, caseId, asOf);
    TrailInWriteOrder(log, stamps, caseId, asOf, ids);
    assert forall k | 0 <= k < |ids| :: ids[k] in ids;
    FoldOfPrefix(log, caseId, n, ids);
  }

  // ----- The source's procedures -----

  lemma AnswersAreKnown(log: seq<Entry>, stamps: seq<Stamp>, caseId: nat, asOf: Option<int>, ids: seq<nat>)
    requires |log| == |stamps| && AnswersTrail(log, stamps, caseId, asOf, ids)
    ensures forall k | 0 <= k < |ids| :: ids[k] < |log|
  {}

  /**
   What an answer is, spelled out: exactly the rows of this case that occurred no later than `asOf`, each
   once, by the time they occurred, and among those of one time by when they were created.
   */
  lemma AnswersAre(log: seq<Entry>, stamps: seq<Stamp>, caseId: nat, asOf: Option<int>, ids: seq<nat>)
    requires |log| == |stamps|
    ensures AnswersTrail(log, stamps, caseId, asOf, ids) <==>
            && (forall k, l | 0 <= k < l < |ids| :: ids[k] != ids[l])
            && (forall i: nat ::
                  i in ids <==>
                    && i < |log|
                    && log[i].owner == Some(caseId)
                    && (asOf.None? || stamps[i].occurred <= asOf.value))
            && (forall k, l | 0 <= k < l < |ids| && ids[k] < |stamps| && ids[l] < |stamps| ::
                  var a, b := stamps[ids[k]], stamps[ids[l]];
                  a.occurred < b.occurred || (a.occurred == b.occurred && a.created <= b.created))
  {
    assert forall k | 0 <= k < |ids| :: ids[k] in ids;
  }

  /** The trail query. */
  method GetCaseAuditTrail(log: seq<Entry>, stamps: seq<Stamp>, caseId: nat, asOf: Option<int>) returns (ids: seq<nat>)
    requires |log| == |stamps|
    ensures AnswersTrail(log, stamps, caseId, asOf, ids)
  {
    hide Placed, Before;
    ids := [];
    for i := 0 to |log|
      invariant Ordered(ids, stamps, i)
      invariant forall k: nat :: k in ids <==> k < i && Selected(log, stamps, caseId, asOf, k)
    {
      if log[i].owner == Some(caseId) && (asOf.None? || stamps[i].occurred <= asOf.value) {
        PlacedIsOrdered(ids, stamps, i);
        ids := Placed(ids, stamps, i);
      }
    }
  }

  /** The replay loop over the trail: one stage variable and three dictionaries. */
  method ReplayCaseState(log: seq<Entry>, stamps: seq<Stamp>, caseId: nat, asOf: Option<int>)
    returns (r: Snapshot, ids: seq<nat>)
    requires |log| == |stamps|
    ensures AnswersTrail(log, stamps, caseId, asOf, ids) && r == FoldAll(Events(log, ids))
    ensures TicksFor(log, stamps, caseId, None) ==> r == Replayed(log[..WrittenBy(log, stamps, caseId, asOf)], caseId)
  {
    hide Replayed, AnswersTrail, TicksFor, WrittenBy;
    ids := GetCaseAuditTrail(log, stamps, caseId, asOf);
    AnswersAreKnown(log, stamps, caseId, asOf, ids);
    var stage := IssueReported;
    var hypotheses: map<nat, (Category, nat)> := map[];
    var actions: map<nat, seq<ActionEvent>> := map[];
    var approvals: map<nat, Decision> := map[];
    for k := 0 to |ids|
      invariant Snapshot(stage, hypotheses, actions, approvals) == FoldAll(Events(log, ids[..k]))
    {
      assert Events(log, ids[..k + 1])[..k] == Events(log, ids[..k]);
      match log[ids[k]].event {
        case StageAdvanced(_, to) =>
          stage := to;
        case ReevaluationTriggered(_, _) =>
          stage := FailureLocated;
        case HypothesisCreated(h, category, confidence) =>
          hypotheses := hypotheses[h := (category, confidence)];
        case ActionLogged(a, event) =>
          if a !in actions {
            actions := actions[a := []];
          }
          actions := actions[a := actions[a] + [event]];
        case ApprovalDecided(p, granted, user, _) =>
          approvals := approvals[p := Decision(granted, user)];
        case _ =>
      }
    }
    assert ids[..|ids|] == ids;
    r := Snapshot(stage, hypotheses, actions, approvals);
    if TicksFor(log, stamps, caseId, None) {
      TrailFoldsPrefix(log, stamps, caseId, asOf, ids);
    }
  }
}
