/**
 * What every call of the ledger keeps, whatever the callers do: the shape of a row, the
 * unique keys, frozen terminal rows, fencing of late results, and the event log as an exact
 * record of the row.
 */
module LedgerInvariants {
  import opened Common
  import opened ActionReadback
  import opened LedgerSpec

  // ---------------------------------------------------------------- rows and tables

  /** A lease is held exactly in the three leased states, a retry time exactly while waiting. */
  ghost predicate LeaseShape(r: Row) {
    && (r.attempt.Some? <==> Leased(r.status))
    && (r.claimedAt.Some? <==> Leased(r.status))
    && (r.nextRepair.Some? <==> r.status == RepairRetryWait)
  }

  /** Past the gate there is an approval of these very parameters; writes were claimed under it. */
  ghost predicate ApprovalShape(r: Row) {
    && (r.status != AwaitingApproval ==> r.approval.Some? && r.approval.value.hash == r.hash)
    && ((r.status == Executing || r.status == Repairing) ==>
          r.claimedAt.Some? && !ApprovalOver(r, r.claimedAt.value))
  }

  ghost predicate RowOk(r: Row) {
    LeaseShape(r) && ApprovalShape(r) && !Includes(r.params.body, RESERVED_MARKER_NAME)
  }

  ghost predicate SameIntent(r: Row, r': Row) {
    r'.task == r.task && r'.slot == r.slot && r'.params == r.params && r'.hash == r.hash && r'.reissues == r.reissues
  }

  ghost predicate TableOk(s: Ledger) {
    && (forall id :: id in s.rows <==> id in s.order)
    && (forall i, j :: 0 <= i < j < |s.order| ==> s.order[i] != s.order[j])
    && (forall e :: e in s.events ==> e.action in s.rows)
  }

  ghost predicate RowsOk(s: Ledger, max: nat) {
    forall id :: id in s.rows ==>
      && RowOk(s.rows[id])
      && s.rows[id].repairAttempts <= max
      && (s.rows[id].attempt.Some? ==> s.rows[id].attempt.value < s.nextAttempt)
  }

  ghost predicate UniqueIntents(s: Ledger) {
    forall a, b :: a in s.rows && b in s.rows && a != b ==>
      s.rows[a].task != s.rows[b].task || s.rows[a].slot != s.rows[b].slot
  }

  ghost predicate UniqueAttempts(s: Ledger) {
    forall a, b :: a in s.rows && b in s.rows && a != b && s.rows[a].attempt.Some? ==>
      s.rows[a].attempt != s.rows[b].attempt
  }

  ghost predicate UniqueNodes(s: Ledger) {
    forall a, b :: a in s.rows && b in s.rows && a != b && s.rows[a].nodeId.Some? ==>
      s.rows[a].nodeId != s.rows[b].nodeId
  }

  /** The invariant of the tables under a repair budget of `max` claims. */
  ghost predicate Core(s: Ledger, max: nat) {
    TableOk(s) && RowsOk(s, max) && UniqueIntents(s) && UniqueAttempts(s) && UniqueNodes(s)
  }

  /** Every repair claim is made under a budget of at most `max`. */
  predicate WithinBudget(op: Op, max: nat) {
    op.OpClaimRepair? ==> op.max <= max
  }

  // ---------------------------------------------------------------- one row update

  /** When replacing one row keeps the tables sound. */
  ghost predicate GoodUpdate(s: Ledger, id: string, r: Row, max: nat) {
    && id in s.rows
    && SameIntent(s.rows[id], r)
    && RowOk(r)
    && r.repairAttempts <= max
    && (r.attempt.Some? ==> r.attempt == s.rows[id].attempt || r.attempt == Some(s.nextAttempt))
    && (r.nodeId.Some? ==> r.nodeId == s.rows[id].nodeId || !NodeTaken(s, id, r.nodeId.value))
  }

  lemma PutKeepsTable(s: Ledger, id: string, r: Row, e: Event, next: nat)
    requires TableOk(s) && id in s.rows && e.action == id
    ensures TableOk(Put(s, id, r, e).(nextAttempt := next))
  {
  }

  lemma PutKeepsRows(s: Ledger, id: string, r: Row, e: Event, next: nat, max: nat)
    requires RowsOk(s, max) && RowOk(r) && r.repairAttempts <= max
    requires next >= s.nextAttempt && (r.attempt.Some? ==> r.attempt.value < next)
    ensures RowsOk(Put(s, id, r, e).(nextAttempt := next), max)
  {
  }

  lemma PutKeepsIntents(s: Ledger, id: string, r: Row, e: Event, next: nat)
    requires UniqueIntents(s) && id in s.rows && SameIntent(s.rows[id], r)
    ensures UniqueIntents(Put(s, id, r, e).(nextAttempt := next))
  {
  }

  lemma PutKeepsAttempts(s: Ledger, id: string, r: Row, e: Event, next: nat)
    requires UniqueAttempts(s) && id in s.rows
    requires forall k :: k in s.rows && s.rows[k].attempt.Some? ==> s.rows[k].attempt.value < s.nextAttempt
    requires r.attempt.Some? ==> r.attempt == s.rows[id].attempt || r.attempt == Some(s.nextAttempt)
    ensures UniqueAttempts(Put(s, id, r, e).(nextAttempt := next))
  {
  }

  lemma PutKeepsNodes(s: Ledger, id: string, r: Row, e: Event, next: nat)
    requires UniqueNodes(s) && id in s.rows
    requires r.nodeId.Some? ==> r.nodeId == s.rows[id].nodeId || !NodeTaken(s, id, r.nodeId.value)
    ensures UniqueNodes(Put(s, id, r, e).(nextAttempt := next))
  {
  }

  lemma PutKeepsCore(s: Ledger, id: string, r: Row, e: Event, next: nat, max: nat)
    requires Core(s, max) && GoodUpdate(s, id, r, max) && e.action == id
    requires next >= s.nextAttempt && (r.attempt == Some(s.nextAttempt) ==> next > s.nextAttempt)
    ensures Core(Put(s, id, r, e).(nextAttempt := next), max)
  {
    PutKeepsTable(s, id, r, e, next);
    PutKeepsRows(s, id, r, e, next, max);
    PutKeepsIntents(s, id, r, e, next);
    PutKeepsAttempts(s, id, r, e, next);
    PutKeepsNodes(s, id, r, e, next);
  }

  lemma ReplaceKeepsCore(s: Ledger, id: string, r: Row, e: Event, max: nat)
    requires Core(s, max) && GoodUpdate(s, id, r, max) && e.action == id && r.attempt != Some(s.nextAttempt)
    ensures Core(Put(s, id, r, e), max)
  {
    PutKeepsCore(s, id, r, e, s.nextAttempt, max);
  }

  lemma InsertKeepsTable(s: Ledger, id: string, r: Row, e: Event)
    requires TableOk(s) && id !in s.rows && e.action == id
    ensures TableOk(Put(s, id, r, e).(order := s.order + [id]))
  {
  }

  lemma InsertKeepsRows(s: Ledger, id: string, r: Row, e: Event, max: nat)
    requires RowsOk(s, max) && id !in s.rows && RowOk(r) && r.repairAttempts == 0 && r.attempt.None?
    ensures RowsOk(Put(s, id, r, e).(order := s.order + [id]), max)
  {
  }

  lemma InsertKeepsKeys(s: Ledger, id: string, r: Row, e: Event)
    requires UniqueIntents(s) && UniqueAttempts(s) && UniqueNodes(s)
    requires id !in s.rows && r.attempt.None? && r.nodeId.None?
    requires forall k :: k in s.rows ==> s.rows[k].task != r.task || s.rows[k].slot != r.slot
    ensures UniqueIntents(Put(s, id, r, e).(order := s.order + [id]))
    ensures UniqueAttempts(Put(s, id, r, e).(order := s.order + [id]))
    ensures UniqueNodes(Put(s, id, r, e).(order := s.order + [id]))
  {
  }

  lemma InsertKeepsCore(s: Ledger, id: string, r: Row, e: Event, max: nat)
    requires Core(s, max) && id !in s.rows && e.action == id
    requires RowOk(r) && r.repairAttempts == 0 && r.attempt.None? && r.nodeId.None?
    requires forall k :: k in s.rows ==> s.rows[k].task != r.task || s.rows[k].slot != r.slot
    ensures Core(Put(s, id, r, e).(order := s.order + [id]), max)
  {
    InsertKeepsTable(s, id, r, e);
    InsertKeepsRows(s, id, r, e, max);
    InsertKeepsKeys(s, id, r, e);
  }

  lemma SlotIsFree(s: Ledger, task: string, slot: string)
    requires TableOk(s) && FindIntent(s.rows, s.order, task, slot).None?
    ensures forall k :: k in s.rows ==> s.rows[k].task != task || s.rows[k].slot != slot
  {
  }

  lemma DeclareKeepsCore(s: Ledger, task: string, slot: string, params: Params, hash: string,
                         reissues: Option<string>, newId: string, now: int, max: nat)
    requires Core(s, max)
    ensures Core(Declare(s, task, slot, params, hash, reissues, newId, now).0, max)
  {
    if !Includes(params.body, RESERVED_MARKER_NAME) && FindIntent(s.rows, s.order, task, slot).None? && newId !in s.rows {
      SlotIsFree(s, task, slot);
      InsertKeepsCore(s, newId, FreshRow(task, slot, params, hash, reissues), Event(newId, None, ActionDeclared, now), max);
    }
  }

  lemma ExpireAllKeepsCore(s: Ledger, ids: seq<string>, now: int, max: nat)
    requires Core(s, max)
    ensures Core(ExpireAll(s, ids, now).0, max)
  {
    if ids != [] {
      var s' := ExpireAll(s, ids[..|ids| - 1], now).0;
      ExpireAllKeepsCore(s, ids[..|ids| - 1], now, max);
      var id := ids[|ids| - 1];
      if id in s'.rows && Expirable(s'.rows[id], now) {
        ExpireOneKeepsCore(s', id, now, max);
      }
    }
  }

  lemma ExpireOneKeepsCore(s: Ledger, id: string, now: int, max: nat)
    requires Core(s, max) && id in s.rows && Expirable(s.rows[id], now)
    ensures Core(ExpireOne(s, id, now), max)
  {
    PutKeepsCore(s, id, ExpiredRow(s.rows[id]), Event(id, None, ApprovalExpired, now), s.nextAttempt, max);
  }

  lemma RecoverAllKeepsCore(s: Ledger, ids: seq<string>, ttl: nat, now: int, max: nat)
    requires Core(s, max)
    ensures Core(RecoverAll(s, ids, ttl, now).0, max)
  {
    if ids != [] {
      var s' := RecoverAll(s, ids[..|ids| - 1], ttl, now).0;
      RecoverAllKeepsCore(s, ids[..|ids| - 1], ttl, now, max);
      var id := ids[|ids| - 1];
      if id in s'.rows && Orphaned(s'.rows[id], ttl, now) {
        PutKeepsCore(s', id, RecoveredRow(s'.rows[id], now),
                     Event(id, s'.rows[id].attempt, OrphanRecovered, now), s'.nextAttempt, max);
      }
    }
  }

  lemma ApproveKeepsCore(s: Ledger, id: string, a: ApprovalRequest, now: int, max: nat)
    requires Core(s, max)
    ensures Core(Approve(s, id, a, now).0, max)
  {
    var s' := Approve(s, id, a, now).0;
    if s' != s {
      PutKeepsCore(s, id, QueuedRow(s.rows[id], a, now), Event(id, None, ApprovalQueued, now), s.nextAttempt, max);
    }
  }

  lemma ClaimExecutionKeepsCore(s: Ledger, id: string, now: int, max: nat)
    requires Core(s, max)
    ensures Core(ClaimExecution(s, id, now).0, max)
  {
    if id in s.rows {
      var r, a := s.rows[id], s.nextAttempt;
      if Expirable(r, now) {
        ExpireOneKeepsCore(s, id, now, max);
      } else if r.status == Queued {
        assert RowOk(LeasedRow(r, Executing, a, now));
        PutKeepsCore(s, id, LeasedRow(r, Executing, a, now), Event(id, Some(a), ExecutionClaimed, now), a + 1, max);
      }
    }
  }

  lemma ClaimReconcileKeepsCore(s: Ledger, id: string, now: int, max: nat)
    requires Core(s, max)
    ensures Core(ClaimReconcile(s, id, now).0, max)
  {
    if id in s.rows && s.rows[id].status == Unknown && ReconcileDue(s.rows[id], now) {
      var r, a := s.rows[id], s.nextAttempt;
      assert RowOk(LeasedRow(r, Reconciling, a, now));
      PutKeepsCore(s, id, LeasedRow(r, Reconciling, a, now), Event(id, Some(a), ReconcileClaimed, now), a + 1, max);
    }
  }

  lemma RepairRows(r: Row, a: nat, now: int)
    requires RowOk(r) && Repairable(r, now)
    ensures RowOk(BlockedRow(r))
    ensures !ApprovalOver(r, now) ==> RowOk(RepairingRow(r, a, now))
  {
  }

  lemma RepairedRowIsGood(s: Ledger, id: string, now: int, max: nat)
    requires RowsOk(s, max) && id in s.rows && Repairable(s.rows[id], now)
    ensures GoodUpdate(s, id, BlockedRow(s.rows[id]), max)
    ensures !ApprovalOver(s.rows[id], now) && s.rows[id].repairAttempts < max ==>
      GoodUpdate(s, id, RepairingRow(s.rows[id], s.nextAttempt, now), max)
  {
    RepairRows(s.rows[id], s.nextAttempt, now);
  }

  lemma ClaimRepairKeepsCore(s: Ledger, id: string, now: int, limit: nat, max: nat)
    requires Core(s, max) && limit <= max
    ensures Core(ClaimRepair(s, id, now, limit).0, max)
  {
    if id in s.rows && Repairable(s.rows[id], now) {
      var r, a := s.rows[id], s.nextAttempt;
      RepairedRowIsGood(s, id, now, max);
      if r.repairAttempts >= limit || ApprovalOver(r, now) {
        ReplaceKeepsCore(s, id, BlockedRow(r), Event(id, None, RepairEnded(RepairBlocked), now), max);
      } else {
        PutKeepsCore(s, id, RepairingRow(r, a, now), Event(id, Some(a), RepairClaimed, now), a + 1, max);
      }
    }
  }

  lemma RecordExecutionKeepsCore(s: Ledger, id: string, attempt: nat, input: ExecutionResult, now: int, max: nat)
    requires Core(s, max)
    ensures Core(RecordExecution(s, id, attempt, input, now).0, max)
  {
    if input.target in EXECUTION_TARGETS && Holds(s, id, Executing, attempt) && !Collides(s, id, input.nodeId) {
      PutKeepsCore(s, id, ExecutionRow(s.rows[id], input),
                   Event(id, Some(attempt), PhaseOr(input.phase, ExecutionPlain), now), s.nextAttempt, max);
    }
  }

  lemma ReconciledRowIsGood(s: Ledger, id: string, input: ReconcileResult, max: nat)
    requires RowsOk(s, max) && id in s.rows && s.rows[id].status == Reconciling && input.target in RECONCILE_TARGETS
    ensures GoodUpdate(s, id, ReconcileRow(s.rows[id], WithoutIdentity(input)), max)
    ensures !Collides(s, id, input.nodeId) ==> GoodUpdate(s, id, ReconcileRow(s.rows[id], input), max)
  {
    assert RowOk(s.rows[id]);
  }

  lemma RecordReconcileKeepsCore(s: Ledger, id: string, attempt: nat, input: ReconcileResult, now: int, max: nat)
    requires Core(s, max)
    ensures Core(RecordReconcile(s, id, attempt, input, now).0, max)
  {
    if input.target in RECONCILE_TARGETS && Holds(s, id, Reconciling, attempt)
       && (input.target == Unknown ==> input.nextReconcile.Some?) {
      SettledReconcileKeepsCore(s, id, attempt, input, now, max);
    }
  }

  lemma SettledReconcileKeepsCore(s: Ledger, id: string, attempt: nat, input: ReconcileResult, now: int, max: nat)
    requires Core(s, max) && Holds(s, id, Reconciling, attempt)
    requires input.target in RECONCILE_TARGETS && (input.target == Unknown ==> input.nextReconcile.Some?)
    ensures Core(RecordReconcile(s, id, attempt, input, now).0, max)
  {
    ReconciledRowIsGood(s, id, input, max);
    if Collides(s, id, input.nodeId) {
      ReplaceKeepsCore(s, id, ReconcileRow(s.rows[id], WithoutIdentity(input)),
                       Event(id, Some(attempt), ReconcileIdentityConflict, now), max);
    } else {
      ReplaceKeepsCore(s, id, ReconcileRow(s.rows[id], input),
                       Event(id, Some(attempt), PhaseOr(input.phase, ReconcilePlain), now), max);
    }
  }

  lemma RecordRepairKeepsCore(s: Ledger, id: string, attempt: nat, input: RepairResult, now: int, max: nat)
    requires Core(s, max)
    ensures Core(RecordRepair(s, id, attempt, input, now).0, max)
  {
    if input.target in REPAIR_TARGETS && Holds(s, id, Repairing, attempt)
       && (input.target == RepairRetryWait ==> input.nextRepair.Some?) {
      PutKeepsCore(s, id, RepairRow(s.rows[id], input),
                   Event(id, Some(attempt), PhaseOr(input.phase, RepairPlain), now), s.nextAttempt, max);
    }
  }

  lemma PerformKeepsCore(s: Ledger, op: Op, max: nat)
    requires Core(s, max) && WithinBudget(op, max)
    ensures Core(Perform(s, op), max)
  {
    match op
    case OpDeclare(task, slot, params, hash, reissues, newId, now) =>
      DeclareKeepsCore(s, task, slot, params, hash, reissues, newId, now, max);
    case OpApprove(id, request, now) => ApproveKeepsCore(s, id, request, now, max);
    case OpExpire(now) => ExpireAllKeepsCore(s, s.order, now, max);
    case OpClaimExecution(id, now) => ClaimExecutionKeepsCore(s, id, now, max);
    case OpClaimReconcile(id, now) => ClaimReconcileKeepsCore(s, id, now, max);
    case OpClaimRepair(id, now, limit) => ClaimRepairKeepsCore(s, id, now, limit, max);
    case OpRecordExecution(id, attempt, input, now) => RecordExecutionKeepsCore(s, id, attempt, input, now, max);
    case OpRecordReconcile(id, attempt, input, now) => RecordReconcileKeepsCore(s, id, attempt, input, now, max);
    case OpRecordRepair(id, attempt, input, now) => RecordRepairKeepsCore(s, id, attempt, input, now, max);
    case OpRecover(ttl, now) => RecoverAllKeepsCore(s, s.order, ttl, now, max);
  }
}
