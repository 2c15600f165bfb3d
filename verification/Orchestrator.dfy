/** Decide, then execute at once whatever needs no further approval. */
module Orchestrator {
  import opened Domain
  import opened CaseState
  import opened NbaEngine
  import opened Executor

  /** The environment's answers during one advance. */
  datatype Turn = Turn(scan: nat, exposure: nat, connector: Connector, raised: seq<Flag>)

  /** The orchestrator's guard around the executor. */
  function ExecuteIfReady(s: State, a: nat, c: Connector, raised: seq<Flag>): (r: State)
    ensures |r.actions| == |s.actions|
  {
    if a < |s.actions| && (s.actions[a].status == Proposed || s.actions[a].status == Approved)
    then Execute(s, a, c, raised) else s
  }

  lemma DecideAnswersRow(s: State, scan: nat, exposure: nat)
    ensures var (s1, a) := Decide(s, scan, exposure); a.Some? ==> a.value < |s1.actions|
  {
    hide Enact, Choose;
    EnactAnswersRow(s.(reevaluate := false), Choose(s.(reevaluate := false), scan), exposure);
  }

  function Advance(s: State, t: Turn): (r: (State, Option<nat>))
    ensures r.1.Some? ==> r.1.value < |r.0.actions|
  {
    DecideAnswersRow(s, t.scan, t.exposure);
    var (s1, a) := Decide(s, t.scan, t.exposure);
    if a.None? then (s1, a) else (ExecuteIfReady(s1, a.value, t.connector, t.raised), a)
  }
}
