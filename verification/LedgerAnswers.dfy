/**
 * What each public call of the ledger answers and writes, in terms of the columns it looks at:
 * when an approval, a claim or a record is accepted, which error every other case gets, and what
 * stands in the row afterwards. And over whole runs, where an approval comes from.
 */
module LedgerAnswers {
  import opened Common
  import opened ActionReadback
  import opened LedgerSpec
  import opened LedgerInvariants
  import opened LedgerHistory

  /** No row comes or goes, and every other row is as it was. */
  ghost predicate OnlyTouches(s: Ledger, s': Ledger, id: string) {
    && s'.rows.Keys == s.rows.Keys && s'.order == s.order
    && forall k :: k in s.rows && k != id ==> s'.rows[k] == s.rows[k]
  }

  /** One more event, and no other. */
  ghost predicate Logs(s: Ledger, s': Ledger, e: Event) {
    s'.events == s.events + [e]
  }

  // ---------------------------------------------------------------- declare

  /**
   * A declaration inserts exactly what it was given, once; on a slot that is taken it compares
   * and writes nothing, and so does every refused one.
   */
  lemma DeclarationIsExact(s: Ledger, task: string, slot: string, params: Params, hash: string,
                           reissues: Option<string>, newId: string, now: int)
    requires TableOk(s) && UniqueIntents(s)
    ensures var (s', answer) := Declare(s, task, slot, params, hash, reissues, newId, now);
      var wellFormed := task != "" && slot != "" && reissues != Some("") && !Includes(params.body, RESERVED_MARKER_NAME);
      var taken := exists k :: k in s.rows && s.rows[k].task == task && s.rows[k].slot == slot;
      && (wellFormed && taken ==>
            s' == s && forall k :: k in s.rows && s.rows[k].task == task && s.rows[k].slot == slot ==>
              answer == if s.rows[k].hash == hash && s.rows[k].reissues == reissues then Ok(k) else Err(Conflict))
      && (wellFormed && !taken && newId in s.rows ==> s' == s && answer == Err(Conflict))
      && (!wellFormed || (!taken && newId !in s.rows && reissues.Some? && reissues.value !in s.rows) ==>
            s' == s && answer == Err(BadRequest))
      && (wellFormed && !taken && newId !in s.rows && (reissues.Some? ==> reissues.value in s.rows) ==>
            answer == Ok(newId) && Inserted(s, s', newId, task, slot, params, hash, reissues, now))
  {
    var found := FindIntent(s.rows, s.order, task, slot);
    if found.None? {
      forall k | k in s.rows ensures s.rows[k].task != task || s.rows[k].slot != slot {
        assert k in s.order;
      }
    }
  }

  /** The new row holds the declared intent and waits for an approval; nothing else is set. */
  ghost predicate Inserted(s: Ledger, s': Ledger, id: string, task: string, slot: string, params: Params, hash: string,
                           reissues: Option<string>, now: int)
  {
    && s'.rows.Keys == s.rows.Keys + {id} && s'.order == s.order + [id] && s'.nextAttempt == s.nextAttempt
    && (forall k :: k in s.rows ==> s'.rows[k] == s.rows[k])
    && Logs(s, s', Event(id, None, ActionDeclared, now))
    && var r := s'.rows[id];
       && r.task == task && r.slot == slot && r.params == params && r.hash == hash && r.reissues == reissues
       && r.status == AwaitingApproval && r.approval == None && r.attempt == None && r.claimedAt == None
       && r.externalId == None && r.nodeId == None && r.receipt == None && r.lastError == None && r.verdict == None
       && r.nextReconcile == None && r.nextRepair == None && r.repairAttempts == 0
  }

  // ---------------------------------------------------------------- approve

  /**
   * An approval is accepted exactly when it is complete, came by cookie, lies ahead, and was given
   * for the parameters that still stand in a row that waits for one. The row then carries what was
   * reviewed; every other case has its own answer and changes nothing.
   */
  lemma ApprovalIsExact(s: Ledger, id: string, a: ApprovalRequest, now: int)
    ensures var (s', answer) := Approve(s, id, a, now);
      var named := id != "" && a.expectedHash != "" && a.approver != "";
      var timely := a.policy != "" && now < a.expiresAt;
      && (answer == Ok(true) <==>
            named && a.cookie && timely && id in s.rows && s.rows[id].hash == a.expectedHash
            && s.rows[id].status == AwaitingApproval)
      && (answer == Err(BadRequest) <==> !named || (a.cookie && !timely))
      && (answer == Err(Forbidden) <==> named && !a.cookie)
      && (answer == Err(Conflict) <==> named && a.cookie && timely && id in s.rows && s.rows[id].hash != a.expectedHash)
      && (answer == Ok(false) <==>
            named && a.cookie && timely
            && (id !in s.rows || (s.rows[id].hash == a.expectedHash && s.rows[id].status != AwaitingApproval)))
      && (answer != Ok(true) ==> s' == s)
      && (answer == Ok(true) ==>
            && OnlyTouches(s, s', id) && s'.nextAttempt == s.nextAttempt && Logs(s, s', Event(id, None, ApprovalQueued, now))
            && s'.rows[id] == s.rows[id].(
                 status := Queued,
                 approval := Some(Approval(now, a.approver, a.policy, a.expectedHash, a.expiresAt))))
  {
  }

  /** The approval that ran out is exactly the one that no longer lies ahead. */
  lemma ExpiryIsExact(s: Ledger, now: int, id: string)
    requires TableOk(s) && id in s.rows
    ensures var s' := ExpireStaleApprovals(s, now).0;
      var r := s.rows[id];
      && id in s'.rows
      && (r.status == Queued && (r.approval.None? || r.approval.value.expiresAt <= now) ==>
            s'.rows[id] == r.(status := AwaitingApproval, attempt := None, claimedAt := None)
            && Own(s'.events, id) == Own(s.events, id) + [Event(id, None, ApprovalExpired, now)])
      && (r.status != Queued || (r.approval.Some? && now < r.approval.value.expiresAt) ==>
            s'.rows[id] == r && Own(s'.events, id) == Own(s.events, id))
  {
    ExpireAllDelta(s, s.order, now, id);
  }

  ghost function Chosen(ids: seq<string>, due: set<string>): set<string> {
    set id | id in ids && id in due
  }

  lemma ChosenGrows(ids: seq<string>, due: set<string>)
    requires ids != [] && forall i, j :: 0 <= i < j < |ids| ==> ids[i] != ids[j]
    ensures var front, k := ids[..|ids| - 1], ids[|ids| - 1];
      && k !in Chosen(front, due)
      && Chosen(ids, due) == if k in due then Chosen(front, due) + {k} else Chosen(front, due)
  {
    assert ids == ids[..|ids| - 1] + [ids[|ids| - 1]];
  }

  ghost function RunOut(s: Ledger, now: int): set<string> {
    set id | id in s.rows && s.rows[id].status == Queued
             && (s.rows[id].approval.None? || s.rows[id].approval.value.expiresAt <= now)
  }

  lemma {:induction false} ExpiryCounts(s: Ledger, ids: seq<string>, now: int)
    requires forall i, j :: 0 <= i < j < |ids| ==> ids[i] != ids[j]
    ensures ExpireAll(s, ids, now).1 == |Chosen(ids, RunOut(s, now))|
    ensures ExpireAll(s, ids, now).0.rows.Keys == s.rows.Keys
  {
    if ids != [] {
      var front, k := ids[..|ids| - 1], ids[|ids| - 1];
      ExpiryCounts(s, front, now);
      if k in s.rows { ExpireAllDelta(s, front, now, k); }
      ChosenGrows(ids, RunOut(s, now));
    }
  }

  /** The pass answers how many approvals it ended. */
  lemma ExpiryCountIsExact(s: Ledger, now: int)
    requires TableOk(s)
    ensures ExpireStaleApprovals(s, now).1 == |RunOut(s, now)|
  {
    ExpiryCounts(s, s.order, now);
    assert Chosen(s.order, RunOut(s, now)) == RunOut(s, now);
  }

  // ---------------------------------------------------------------- claims

  /** The approval of a row is of its own parameters and lies ahead. */
  ghost predicate ApprovalRuns(r: Row, now: int) {
    r.approval.Some? && r.approval.value.hash == r.hash && now < r.approval.value.expiresAt
  }

  /** An execution is claimed exactly for a queued row whose approval still runs. */
  lemma ExecutionClaimIsExact(s: Ledger, id: string, now: int)
    ensures var (s', claim) := ClaimExecution(s, id, now);
      && (claim.Some? <==> id in s.rows && s.rows[id].status == Queued && ApprovalRuns(s.rows[id], now))
      && (claim.Some? ==>
            && claim.value == s.nextAttempt && s'.nextAttempt == s.nextAttempt + 1
            && OnlyTouches(s, s', id) && Logs(s, s', Event(id, claim, ExecutionClaimed, now))
            && s'.rows[id] == s.rows[id].(status := Executing, attempt := claim, claimedAt := Some(now)))
      && (id in s.rows && s.rows[id].status == Queued && (s.rows[id].approval.None? || s.rows[id].approval.value.expiresAt <= now) ==>
            && OnlyTouches(s, s', id) && Logs(s, s', Event(id, None, ApprovalExpired, now))
            && s'.rows[id] == s.rows[id].(status := AwaitingApproval, attempt := None, claimedAt := None))
      && (id !in s.rows || s.rows[id].status != Queued ==> s' == s)
  {
  }

  /** A reconcile is claimed exactly for an unknown row whose time, if it has one, has come. */
  lemma ReconcileClaimIsExact(s: Ledger, id: string, now: int)
    ensures var (s', claim) := ClaimReconcile(s, id, now);
      && (claim.Some? <==>
            && id in s.rows && s.rows[id].status == Unknown
            && (s.rows[id].nextReconcile.None? || s.rows[id].nextReconcile.value <= now))
      && (claim.Some? ==>
            && claim.value == s.nextAttempt && s'.nextAttempt == s.nextAttempt + 1
            && OnlyTouches(s, s', id) && Logs(s, s', Event(id, claim, ReconcileClaimed, now))
            && s'.rows[id] == s.rows[id].(status := Reconciling, attempt := claim, claimedAt := Some(now)))
      && (claim.None? ==> s'.rows == s.rows && s'.events == s.events)
  {
  }

  /** A row whose labels are to be repaired now: at once after the first shortfall, or when its time has come. */
  ghost predicate RepairIsDue(r: Row, now: int) {
    || r.status == PartiallyApplied
    || (r.status == RepairRetryWait && r.nextRepair.Some? && r.nextRepair.value <= now)
  }

  /**
   * A due repair is claimed exactly while the budget lasts and the approval runs, and counted; a
   * due repair that is not claimed is blocked for good, and any other row is left alone.
   */
  lemma RepairClaimIsExact(s: Ledger, id: string, now: int, max: nat)
    ensures var (s', claim) := ClaimRepair(s, id, now, max);
      var due := id in s.rows && RepairIsDue(s.rows[id], now);
      && (claim.Claimed? <==>
            && due && s.rows[id].repairAttempts < max
            && s.rows[id].approval.Some? && now < s.rows[id].approval.value.expiresAt)
      && (claim.NotClaimed? <==> !due)
      && (claim.Claimed? ==>
            && claim.attempt == s.nextAttempt && s'.nextAttempt == s.nextAttempt + 1
            && OnlyTouches(s, s', id) && Logs(s, s', Event(id, Some(claim.attempt), RepairClaimed, now))
            && s'.rows[id] == s.rows[id].(
                 status := Repairing, attempt := Some(claim.attempt), claimedAt := Some(now),
                 repairAttempts := s.rows[id].repairAttempts + 1, nextRepair := None))
      && (claim.Blocked? ==>
            && (claim.maxAttempts <==> s.rows[id].repairAttempts >= max)
            && OnlyTouches(s, s', id) && Logs(s, s', Event(id, None, RepairEnded(RepairBlocked), now))
            && s'.rows[id] == s.rows[id].(status := RepairBlocked, attempt := None, claimedAt := None, nextRepair := None))
      && (claim.NotClaimed? ==> s' == s)
  {
  }

  // ---------------------------------------------------------------- records

  /** What an optional input does to a column: absent it leaves it, given it replaces it. */
  ghost predicate Writes<T(!new)>(input: Field<T>, before: Option<T>, after: Option<T>) {
    (input == Keep ==> after == before) && forall v :: input == Set(v) ==> after == v
  }

  /** The external identity an input carries belongs to another action. */
  ghost predicate Belongs(s: Ledger, id: string, node: Field<string>) {
    exists other, name :: other in s.rows && other != id && node == Set(Some(name)) && s.rows[other].nodeId == Some(name)
  }

  /** The columns no record may write. */
  ghost predicate SameFrame(r: Row, r': Row) {
    SameIntent(r, r') && r'.approval == r.approval && r'.repairAttempts == r.repairAttempts
  }

  /**
   * A result of an execution is written exactly when it comes from the attempt that holds the
   * row and takes no other action's identity; the lease ends unless the execution goes on.
   */
  lemma ExecutionRecordIsExact(s: Ledger, id: string, attempt: nat, input: ExecutionResult, now: int)
    ensures var (s', answer) := RecordExecution(s, id, attempt, input, now);
      var known := input.target in {Executing, Succeeded, PartiallyApplied, Failed, Unknown};
      var held := id in s.rows && s.rows[id].status == Executing && s.rows[id].attempt == Some(attempt);
      && (answer == Ok(true) <==> known && held && !Belongs(s, id, input.nodeId))
      && (answer == Err(Conflict) <==> known && held && Belongs(s, id, input.nodeId))
      && (answer == Err(BadRequest) <==> !known)
      && (answer.Err? ==> s' == s)
      && (answer == Ok(false) ==> s'.rows == s.rows && s'.events == if id in s.rows
            then s.events + [Event(id, Some(attempt), ExecutionStale, now)] else s.events)
      && (answer == Ok(true) ==>
            && OnlyTouches(s, s', id) && s'.nextAttempt == s.nextAttempt
            && Logs(s, s', Event(id, Some(attempt), if input.phase.Some? then input.phase.value else ExecutionPlain, now))
            && var r, r' := s.rows[id], s'.rows[id];
               && SameFrame(r, r') && r'.status == input.target && r'.nextRepair == r.nextRepair
               && r'.attempt == (if input.target == Executing then r.attempt else None)
               && r'.claimedAt == (if input.target == Executing then r.claimedAt else None)
               && Writes(input.externalId, r.externalId, r'.externalId) && Writes(input.nodeId, r.nodeId, r'.nodeId)
               && Writes(input.receipt, r.receipt, r'.receipt) && Writes(input.lastError, r.lastError, r'.lastError)
               && Writes(input.nextReconcile, r.nextReconcile, r'.nextReconcile)
               && Writes(input.verdict, r.verdict, r'.verdict))
  {
    BelongsIsCollision(s, id, input.nodeId);
  }

  lemma BelongsIsCollision(s: Ledger, id: string, node: Field<string>)
    ensures Collides(s, id, node) <==> Belongs(s, id, node)
  {
    if Collides(s, id, node) {
      var other :| other in s.rows && other != id && s.rows[other].nodeId == Some(node.value.value);
      assert node == Set(Some(node.value.value));
    }
  }

  /** A result of a reconcile that may be written at all. */
  ghost predicate Reconcilable(input: ReconcileResult) {
    && input.target in {Succeeded, PartiallyApplied, InConflict, Unknown}
    && (input.target == Unknown ==> input.nextReconcile.Some?)
  }

  /**
   * A result of a reconcile is written exactly when the attempt holds the row. An identity that
   * belongs to another action ends it in conflict, with every identity column as it was.
   */
  lemma ReconcileRecordIsExact(s: Ledger, id: string, attempt: nat, input: ReconcileResult, now: int)
    ensures var (s', answer) := RecordReconcile(s, id, attempt, input, now);
      var held := id in s.rows && s.rows[id].status == Reconciling && s.rows[id].attempt == Some(attempt);
      && (answer == Ok(true) <==> Reconcilable(input) && held)
      && (answer.Err? <==> !Reconcilable(input)) && (answer.Err? ==> answer == Err(BadRequest) && s' == s)
      && (answer == Ok(false) ==> s'.rows == s.rows && s'.events == if id in s.rows
            then s.events + [Event(id, Some(attempt), ReconcileStale, now)] else s.events)
      && (answer == Ok(true) ==>
            && OnlyTouches(s, s', id) && s'.nextAttempt == s.nextAttempt
            && var r, r' := s.rows[id], s'.rows[id];
               && SameFrame(r, r') && r'.attempt == None && r'.claimedAt == None
               && r'.lastError == r.lastError && r'.nextRepair == r.nextRepair && Writes(input.receipt, r.receipt, r'.receipt))
  {
  }

  /** Which status, identity and time such a result leaves. */
  lemma ReconcileRecordWrites(s: Ledger, id: string, attempt: nat, input: ReconcileResult, now: int)
    requires Reconcilable(input) && Holds(s, id, Reconciling, attempt)
    ensures var s' := RecordReconcile(s, id, attempt, input, now).0;
      id in s'.rows && var r, r' := s.rows[id], s'.rows[id];
      if Belongs(s, id, input.nodeId) then
        && r'.status == InConflict && r'.nodeId == r.nodeId && r'.externalId == r.externalId && r'.nextReconcile == None
        && r'.verdict == Some(Reason("external_identity_conflict"))
        && Logs(s, s', Event(id, Some(attempt), ReconcileIdentityConflict, now))
      else
        && r'.status == input.target && r'.nextReconcile == (if input.target == Unknown then input.nextReconcile else None)
        && Writes(input.externalId, r.externalId, r'.externalId) && Writes(input.nodeId, r.nodeId, r'.nodeId)
        && Writes(input.verdict, r.verdict, r'.verdict)
        && Logs(s, s', Event(id, Some(attempt), if input.phase.Some? then input.phase.value else ReconcilePlain, now))
  {
    BelongsIsCollision(s, id, input.nodeId);
  }

  /** A result of a repair that may be written at all: a wait or an unknown end needs its time. */
  ghost predicate Repaired(input: RepairResult) {
    && input.target in {Succeeded, RepairBlocked, RepairRetryWait, Unknown}
    && (input.target == RepairRetryWait ==> input.nextRepair.Some?)
    && (input.target == Unknown ==> input.nextReconcile.Some?)
  }

  /** A result of a repair is written exactly when the attempt holds the row; it never touches the identity. */
  lemma RepairRecordIsExact(s: Ledger, id: string, attempt: nat, input: RepairResult, now: int)
    ensures var (s', answer) := RecordRepair(s, id, attempt, input, now);
      var held := id in s.rows && s.rows[id].status == Repairing && s.rows[id].attempt == Some(attempt);
      && (answer == Ok(true) <==> Repaired(input) && held)
      && (answer.Err? <==> !Repaired(input)) && (answer.Err? ==> answer == Err(BadRequest) && s' == s)
      && (answer == Ok(false) ==> s'.rows == s.rows && s'.events == if id in s.rows
            then s.events + [Event(id, Some(attempt), RepairStale, now)] else s.events)
      && (answer == Ok(true) ==>
            && OnlyTouches(s, s', id) && s'.nextAttempt == s.nextAttempt
            && Logs(s, s', Event(id, Some(attempt), if input.phase.Some? then input.phase.value else RepairPlain, now))
            && var r, r' := s.rows[id], s'.rows[id];
               && SameFrame(r, r') && r'.status == input.target && r'.attempt == None && r'.claimedAt == None
               && r'.externalId == r.externalId && r'.nodeId == r.nodeId
               && r'.nextRepair == (if input.target == RepairRetryWait then input.nextRepair else None)
               && r'.nextReconcile == (if input.target == Unknown then input.nextReconcile else None)
               && Writes(input.receipt, r.receipt, r'.receipt) && Writes(input.lastError, r.lastError, r'.lastError)
               && Writes(input.verdict, r.verdict, r'.verdict))
  {
  }

  ghost function Orphans(s: Ledger, ttl: nat, now: int): set<string> {
    set id | id in s.rows && Orphaned(s.rows[id], ttl, now)
  }

  lemma {:induction false} RecoveryCounts(s: Ledger, ids: seq<string>, ttl: nat, now: int)
    requires forall i, j :: 0 <= i < j < |ids| ==> ids[i] != ids[j]
    ensures RecoverAll(s, ids, ttl, now).1 == |Chosen(ids, Orphans(s, ttl, now))|
    ensures RecoverAll(s, ids, ttl, now).0.rows.Keys == s.rows.Keys
  {
    if ids != [] {
      var front, k := ids[..|ids| - 1], ids[|ids| - 1];
      RecoveryCounts(s, front, ttl, now);
      if k in s.rows { RecoverAllDelta(s, front, ttl, now, k); }
      ChosenGrows(ids, Orphans(s, ttl, now));
    }
  }

  /** The pass answers how many leases it ended. */
  lemma RecoveryCountIsExact(s: Ledger, ttl: nat, now: int)
    requires TableOk(s)
    ensures RecoverOrphans(s, ttl, now).1 == |Orphans(s, ttl, now)|
  {
    RecoveryCounts(s, s.order, ttl, now);
    assert Chosen(s.order, Orphans(s, ttl, now)) == Orphans(s, ttl, now);
  }

  /** A recovery pass ends exactly the leases of the given age or more, and makes their rows due at once. */
  lemma RecoveryWrites(s: Ledger, ttl: nat, now: int, id: string)
    requires TableOk(s) && id in s.rows
    ensures var s' := RecoverOrphans(s, ttl, now).0;
      var r := s.rows[id];
      && id in s'.rows
      && (r.status in {Executing, Reconciling, Repairing} && r.claimedAt.Some? && r.claimedAt.value + ttl <= now ==>
            s'.rows[id] == r.(status := Unknown, attempt := None, claimedAt := None, nextReconcile := Some(now))
            && Own(s'.events, id) == Own(s.events, id) + [Event(id, r.attempt, OrphanRecovered, now)])
      && (r.status !in {Executing, Reconciling, Repairing} || r.claimedAt.None? || now < r.claimedAt.value + ttl ==>
            s'.rows[id] == r && Own(s'.events, id) == Own(s.events, id))
  {
    RecoverAllDelta(s, s.order, ttl, now, id);
  }

  // ---------------------------------------------------------------- where approvals come from

  /** Call number `n` is an approval of this action, at this time, that named this hash as reviewed. */
  predicate ReviewedBy(ops: seq<Op>, n: nat, id: string, at: int, hash: string) {
    && n < |ops| && ops[n].OpApprove? && ops[n].id == id && ops[n].now == at
    && ops[n].request.expectedHash == hash && ops[n].request.cookie && at < ops[n].request.expiresAt
  }

  /** Nothing but an approval logs one or touches the approval of a row. */
  ghost predicate LeavesApprovals(s: Ledger, s': Ledger, id: string) {
    && (forall e :: e in s'.events && e.phase == ApprovalQueued ==> e in s.events)
    && (id in s'.rows ==> s'.rows[id].approval == if id in s.rows then s.rows[id].approval else None)
  }

  lemma ExpiryLeavesApprovals(s: Ledger, ids: seq<string>, now: int, id: string)
    ensures LeavesApprovals(s, ExpireAll(s, ids, now).0, id)
  {
    if ids != [] {
      ExpiryLeavesApprovals(s, ids[..|ids| - 1], now, id);
    }
  }

  lemma RecoveryLeavesApprovals(s: Ledger, ids: seq<string>, ttl: nat, now: int, id: string)
    ensures LeavesApprovals(s, RecoverAll(s, ids, ttl, now).0, id)
  {
    if ids != [] {
      RecoveryLeavesApprovals(s, ids[..|ids| - 1], ttl, now, id);
    }
  }

  lemma ClaimsLeaveApprovals(s: Ledger, op: Op, id: string)
    requires Claims(op)
    ensures LeavesApprovals(s, Perform(s, op), id)
  {
  }

  lemma ExecutionRecordLeavesApprovals(s: Ledger, op: Op, id: string)
    requires op.OpRecordExecution? && Fits(op)
    ensures LeavesApprovals(s, Perform(s, op), id)
  {
  }

  lemma ReconcileRecordLeavesApprovals(s: Ledger, op: Op, id: string)
    requires op.OpRecordReconcile? && Fits(op)
    ensures LeavesApprovals(s, Perform(s, op), id)
  {
  }

  lemma RepairRecordLeavesApprovals(s: Ledger, op: Op, id: string)
    requires op.OpRecordRepair? && Fits(op)
    ensures LeavesApprovals(s, Perform(s, op), id)
  {
  }

  lemma DeclarationLeavesApprovals(s: Ledger, op: Op, id: string)
    requires op.OpDeclare?
    ensures LeavesApprovals(s, Perform(s, op), id)
  {
  }

  lemma OthersLeaveApprovals(s: Ledger, op: Op, id: string)
    requires Fits(op) && !op.OpApprove?
    ensures LeavesApprovals(s, Perform(s, op), id)
  {
    match op
    case OpDeclare(_, _, _, _, _, _, _) => DeclarationLeavesApprovals(s, op, id);
    case OpExpire(now) => ExpiryLeavesApprovals(s, s.order, now, id);
    case OpRecover(ttl, now) => RecoveryLeavesApprovals(s, s.order, ttl, now, id);
    case OpRecordExecution(_, _, _, _) => ExecutionRecordLeavesApprovals(s, op, id);
    case OpRecordReconcile(_, _, _, _) => ReconcileRecordLeavesApprovals(s, op, id);
    case OpRecordRepair(_, _, _, _) => RepairRecordLeavesApprovals(s, op, id);
    case _ => ClaimsLeaveApprovals(s, op, id);
  }

  /** A call that logs an approval is one, and it named the hash of the row as reviewed. */
  lemma NewApprovalWasReviewed(s: Ledger, op: Op, e: Event)
    requires Fits(op) && e in Perform(s, op).events && e !in s.events && e.phase == ApprovalQueued
    ensures ReviewedBy([op], 0, e.action, e.ts, if e.action in s.rows then s.rows[e.action].hash else "")
    ensures e.action in s.rows
  {
    if op.OpApprove? {
      ApprovalIsExact(s, op.id, op.request, op.now);
    } else {
      OthersLeaveApprovals(s, op, e.action);
    }
  }

  /**
   * On every run of calls, whenever an approval of an action was logged, the caller had reviewed
   * the very parameters the action still has: the logged call named their hash, came by cookie,
   * and its time lay ahead.
   */
  lemma {:induction false} EveryApprovalWasReviewed(ops: seq<Op>, max: nat, e: Event)
    requires forall op :: op in ops ==> WithinBudget(op, max) && Fits(op)
    requires e in PerformAll(EMPTY, ops).events && e.phase == ApprovalQueued
    ensures e.action in PerformAll(EMPTY, ops).rows
    ensures exists n: nat :: ReviewedBy(ops, n, e.action, e.ts, PerformAll(EMPTY, ops).rows[e.action].hash)
  {
    var last := |ops| - 1;
    var front, s := ops[..last], PerformAll(EMPTY, ops[..last]);
    RunIsSound(front, max);
    if e in s.events {
      EveryApprovalWasReviewed(front, max, e);
      var n: nat :| ReviewedBy(front, n, e.action, e.ts, s.rows[e.action].hash);
      PerformKeeps(s, ops[last], e.action);
      assert ReviewedBy(ops, n, e.action, e.ts, PerformAll(EMPTY, ops).rows[e.action].hash);
    } else {
      NewApprovalWasReviewed(s, ops[last], e);
      PerformKeeps(s, ops[last], e.action);
      assert ReviewedBy(ops, last, e.action, e.ts, PerformAll(EMPTY, ops).rows[e.action].hash);
    }
  }

  /** Call number `n` gave this very approval. */
  predicate GivenBy(ops: seq<Op>, n: nat, id: string, a: Approval) {
    && ReviewedBy(ops, n, id, a.at, a.hash)
    && ops[n].request.approver == a.approver && ops[n].request.policy == a.policy && ops[n].request.expiresAt == a.expiresAt
  }

  /** On every run the approval a row carries is one that a caller gave, as he gave it, for its parameters. */
  lemma {:induction false} StoredApprovalWasGiven(ops: seq<Op>, max: nat, id: string)
    requires forall op :: op in ops ==> WithinBudget(op, max) && Fits(op)
    requires id in PerformAll(EMPTY, ops).rows && PerformAll(EMPTY, ops).rows[id].approval.Some?
    ensures var r := PerformAll(EMPTY, ops).rows[id];
      r.approval.value.hash == r.hash && exists n: nat :: GivenBy(ops, n, id, r.approval.value)
  {
    var last := |ops| - 1;
    var front, s, s' := ops[..last], PerformAll(EMPTY, ops[..last]), PerformAll(EMPTY, ops);
    RunIsSound(front, max);
    if id in s.rows { PerformKeeps(s, ops[last], id); }
    if id in s.rows && s.rows[id].approval == s'.rows[id].approval {
      StoredApprovalWasGiven(front, max, id);
      var n: nat :| GivenBy(front, n, id, s.rows[id].approval.value);
      assert GivenBy(ops, n, id, s'.rows[id].approval.value);
    } else {
      if !ops[last].OpApprove? { OthersLeaveApprovals(s, ops[last], id); }
      ApprovalIsExact(s, ops[last].id, ops[last].request, ops[last].now);
      assert GivenBy(ops, last, id, s'.rows[id].approval.value);
    }
  }
}
