/**
 * The ledger service in its own form: an object whose transactions update its tables in
 * place. Every method is proved against the transition of `LedgerSpec` with its name.
 */
module ActionLedgerService {
  import opened Common
  import opened ActionReadback
  import opened LedgerSpec

  class ActionLedger {
    var rows: map<string, Row>
    var order: seq<string>
    var events: seq<Event>
    var nextAttempt: nat

    constructor ()
      ensures State() == EMPTY
    {
      rows, order, events, nextAttempt := map[], [], [], 0;
    }

    function State(): Ledger
      reads this
    {
      Ledger(rows, order, events, nextAttempt)
    }

    method InsertEvent(id: string, attempt: Option<nat>, phase: Phase, ts: int)
      modifies this`events
      ensures State() == Append(old(State()), Event(id, attempt, phase, ts))
    {
      events := events + [Event(id, attempt, phase, ts)];
    }

    method FreshAttempt() returns (attempt: nat)
      modifies this`nextAttempt
      ensures attempt == old(nextAttempt) && nextAttempt == old(nextAttempt) + 1
    {
      attempt := nextAttempt;
      nextAttempt := nextAttempt + 1;
    }

    method DeclareAction(task: string, slot: string, params: Params, hash: string, reissues: Option<string>,
                         newId: string, now: int) returns (r: Result<string>)
      modifies this
      ensures (State(), r) == Declare(old(State()), task, slot, params, hash, reissues, newId, now)
    {
      if task == "" || slot == "" { return Err(BadRequest); }
      if Includes(params.body, RESERVED_MARKER_NAME) { return Err(BadRequest); }
      if reissues == Some("") { return Err(BadRequest); }
      var existing := FindIntent(rows, order, task, slot);
      if existing.Some? {
        var row := rows[existing.value];
        if row.hash != hash || row.reissues != reissues { return Err(Conflict); }
        return Ok(existing.value);
      }
      if newId in rows { return Err(Conflict); }
      if reissues.Some? && reissues.value !in rows { return Err(BadRequest); }
      rows := rows[newId := FreshRow(task, slot, params, hash, reissues)];
      order := order + [newId];
      InsertEvent(newId, None, ActionDeclared, now);
      return Ok(newId);
    }

    method ApproveAction(id: string, a: ApprovalRequest, now: int) returns (r: Result<bool>)
      modifies this
      ensures (State(), r) == Approve(old(State()), id, a, now)
    {
      if id == "" || a.expectedHash == "" || a.approver == "" { return Err(BadRequest); }
      if !a.cookie { return Err(Forbidden); }
      if a.policy == "" { return Err(BadRequest); }
      if a.expiresAt <= now { return Err(BadRequest); }
      if id !in rows { return Ok(false); }
      var current := rows[id];
      if current.hash != a.expectedHash { return Err(Conflict); }
      if current.status != AwaitingApproval { return Ok(false); }
      rows := rows[id := current.(status := Queued,
        approval := Some(Approval(now, a.approver, a.policy, current.hash, a.expiresAt)))];
      InsertEvent(id, None, ApprovalQueued, now);
      return Ok(true);
    }

    /** The guarded update that takes an expired approval out of the queue. */
    method RunExpireOne(id: string, now: int) returns (changed: bool)
      requires id in rows
      modifies this
      ensures changed == Expirable(old(rows)[id], now)
      ensures State() == if changed then ExpireOne(old(State()), id, now) else old(State())
    {
      var row := rows[id];
      if row.status != Queued { return false; }
      if row.approval.Some? && row.approval.value.expiresAt > now { return false; }
      rows := rows[id := row.(status := AwaitingApproval, attempt := None, claimedAt := None)];
      InsertEvent(id, None, ApprovalExpired, now);
      return true;
    }

    method ExpireApprovals(now: int) returns (count: nat)
      modifies this
      ensures (State(), count) == ExpireStaleApprovals(old(State()), now)
    {
      count := 0;
      var candidates := order;
      ghost var before := State();
      for i := 0 to |candidates|
        invariant (State(), count) == ExpireAll(before, candidates[..i], now)
      {
        assert candidates[..i + 1][..|candidates[..i + 1]| - 1] == candidates[..i];
        if candidates[i] in rows {
          var changed := RunExpireOne(candidates[i], now);
          if changed { count := count + 1; }
        }
      }
      assert candidates[..|candidates|] == candidates;
    }

    method ClaimForExecution(id: string, now: int) returns (attempt: Option<nat>)
      modifies this
      ensures (State(), attempt) == ClaimExecution(old(State()), id, now)
    {
      if id !in rows { return None; }
      var expired := RunExpireOne(id, now);
      if expired { return None; }
      var current := rows[id];
      if current.status != Queued || current.approval.None? || current.approval.value.hash != current.hash {
        return None;
      }
      var a := FreshAttempt();
      rows := rows[id := current.(status := Executing, attempt := Some(a), claimedAt := Some(now))];
      InsertEvent(id, Some(a), ExecutionClaimed, now);
      return Some(a);
    }

    method ClaimForReconcile(id: string, now: int) returns (attempt: Option<nat>)
      modifies this
      ensures (State(), attempt) == ClaimReconcile(old(State()), id, now)
    {
      if id !in rows || rows[id].status != Unknown { return None; }
      var current := rows[id];
      var a := FreshAttempt();
      if current.nextReconcile.Some? && current.nextReconcile.value > now { return None; }
      rows := rows[id := current.(status := Reconciling, attempt := Some(a), claimedAt := Some(now))];
      InsertEvent(id, Some(a), ReconcileClaimed, now);
      return Some(a);
    }

    method ClaimForRepair(id: string, now: int, max: nat) returns (claim: RepairClaim)
      modifies this
      ensures (State(), claim) == ClaimRepair(old(State()), id, now, max)
    {
      if id !in rows { return NotClaimed; }
      var current := rows[id];
      var waited := current.status == RepairRetryWait && current.nextRepair.Some? && current.nextRepair.value <= now;
      if current.status != PartiallyApplied && !waited { return NotClaimed; }
      var spent := current.repairAttempts >= max;
      if spent || current.approval.None? || current.approval.value.expiresAt <= now {
        rows := rows[id := current.(status := RepairBlocked, attempt := None, claimedAt := None, nextRepair := None)];
        InsertEvent(id, None, RepairEnded(RepairBlocked), now);
        return Blocked(spent);
      }
      var a := FreshAttempt();
      rows := rows[id := current.(status := Repairing, attempt := Some(a), claimedAt := Some(now),
                                  repairAttempts := current.repairAttempts + 1, nextRepair := None)];
      InsertEvent(id, Some(a), RepairClaimed, now);
      return Claimed(a);
    }

    method RecordExecutionResult(id: string, attempt: nat, input: ExecutionResult, now: int) returns (r: Result<bool>)
      modifies this
      ensures (State(), r) == RecordExecution(old(State()), id, attempt, input, now)
    {
      if input.target !in EXECUTION_TARGETS { return Err(BadRequest); }
      if id !in rows { return Ok(false); }
      var row := rows[id];
      if row.status != Executing || row.attempt != Some(attempt) {
        InsertEvent(id, Some(attempt), ExecutionStale, now);
        return Ok(false);
      }
      if Collides(State(), id, input.nodeId) { return Err(Conflict); }
      rows := rows[id := ExecutionRow(row, input)];
      InsertEvent(id, Some(attempt), PhaseOr(input.phase, ExecutionPlain), now);
      return Ok(true);
    }

    method RecordReconcileResult(id: string, attempt: nat, input: ReconcileResult, now: int) returns (r: Result<bool>)
      modifies this
      ensures (State(), r) == RecordReconcile(old(State()), id, attempt, input, now)
    {
      if input.target !in RECONCILE_TARGETS { return Err(BadRequest); }
      if input.target == Unknown && input.nextReconcile.None? { return Err(BadRequest); }
      if id !in rows { return Ok(false); }
      var row := rows[id];
      if row.status != Reconciling || row.attempt != Some(attempt) {
        InsertEvent(id, Some(attempt), ReconcileStale, now);
        return Ok(false);
      }
      var identityConflict := Collides(State(), id, input.nodeId);
      rows := rows[id := ReconcileRow(row, if identityConflict then WithoutIdentity(input) else input)];
      InsertEvent(id, Some(attempt),
                  if identityConflict then ReconcileIdentityConflict else PhaseOr(input.phase, ReconcilePlain), now);
      return Ok(true);
    }

    method RecordRepairResult(id: string, attempt: nat, input: RepairResult, now: int) returns (r: Result<bool>)
      modifies this
      ensures (State(), r) == RecordRepair(old(State()), id, attempt, input, now)
    {
      if input.target !in REPAIR_TARGETS { return Err(BadRequest); }
      if input.target == RepairRetryWait && input.nextRepair.None? { return Err(BadRequest); }
      if input.target == Unknown && input.nextReconcile.None? { return Err(BadRequest); }
      if id !in rows { return Ok(false); }
      var row := rows[id];
      if row.status != Repairing || row.attempt != Some(attempt) {
        InsertEvent(id, Some(attempt), RepairStale, now);
        return Ok(false);
      }
      rows := rows[id := RepairRow(row, input)];
      InsertEvent(id, Some(attempt), PhaseOr(input.phase, RepairPlain), now);
      return Ok(true);
    }

    method RecoverOrphanedLeases(ttl: nat, now: int) returns (count: nat)
      modifies this
      ensures (State(), count) == RecoverOrphans(old(State()), ttl, now)
    {
      count := 0;
      var candidates := order;
      ghost var before := State();
      for i := 0 to |candidates|
        invariant (State(), count) == RecoverAll(before, candidates[..i], ttl, now)
      {
        assert candidates[..i + 1][..|candidates[..i + 1]| - 1] == candidates[..i];
        var id := candidates[i];
        if id in rows && Orphaned(rows[id], ttl, now) {
          var row := rows[id];
          rows := rows[id := row.(status := Unknown, attempt := None, claimedAt := None, nextReconcile := Some(now))];
          InsertEvent(id, row.attempt, OrphanRecovered, now);
          count := count + 1;
        }
      }
      assert candidates[..|candidates|] == candidates;
    }

    /** Any public call, as another worker or an operator would make it. */
    method Execute(op: Op)
      modifies this
      ensures State() == Perform(old(State()), op)
    {
      match op {
        case OpDeclare(task, slot, params, hash, reissues, newId, now) =>
          var _ := DeclareAction(task, slot, params, hash, reissues, newId, now);
        case OpApprove(id, request, now) => var _ := ApproveAction(id, request, now);
        case OpExpire(now) => var _ := ExpireApprovals(now);
        case OpClaimExecution(id, now) => var _ := ClaimForExecution(id, now);
        case OpClaimReconcile(id, now) => var _ := ClaimForReconcile(id, now);
        case OpClaimRepair(id, now, max) => var _ := ClaimForRepair(id, now, max);
        case OpRecordExecution(id, attempt, input, now) => var _ := RecordExecutionResult(id, attempt, input, now);
        case OpRecordReconcile(id, attempt, input, now) => var _ := RecordReconcileResult(id, attempt, input, now);
        case OpRecordRepair(id, attempt, input, now) => var _ := RecordRepairResult(id, attempt, input, now);
        case OpRecover(ttl, now) => var _ := RecoverOrphanedLeases(ttl, now);
      }
    }

    method ExecuteAll(ops: seq<Op>)
      modifies this
      ensures State() == PerformAll(old(State()), ops)
    {
      ghost var before := State();
      for i := 0 to |ops|
        invariant State() == PerformAll(before, ops[..i])
      {
        assert ops[..i + 1][..|ops[..i + 1]| - 1] == ops[..i];
        Execute(ops[i]);
      }
      assert ops[..|ops|] == ops;
    }
  }
}
