/** A human decision on an approval, role-checked, moving the approval and its action together. */
module Approvals {
  import opened Domain
  import opened CaseState
  import opened NbaEngine

  datatype ApprovalError = NotADecision | AlreadyDecided | WrongRole | ActionNotFound

  predicate Permits(required: Role, role: Role) {
    role == Admin || role == required
  }

  function Decided(s: State, p: nat, decision: ApprovalStatus, user: User): Result<State, ApprovalError>
    requires p < |s.approvals|
  {
    var approval := s.approvals[p];
    if decision == Pending then Failure(NotADecision)
    else if approval.status != Pending then Failure(AlreadyDecided)
    else if !Permits(approval.requiredRole, user.role) then Failure(WrongRole)
    else if approval.action >= |s.actions| then Failure(ActionNotFound)
    else
      var s1 := s.(approvals := s.approvals[p := approval.(status := decision, decidedBy := Some(user.id))]);
      Success(Record(SetStatus(s1, approval.action, if decision == Granted then Approved else Rejected),
                     ApprovalDecided(p, decision == Granted, user.id, user.role)))
  }
}
