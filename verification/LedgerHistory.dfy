/**
 * The append-only event log as an exact record: one call gives an action at most one event,
 * the row moves only together with a non-stale event, and folding the events of an action
 * gives back its status, its lease, and its counts of execution and repair claims.
 */
module LedgerHistory {
  import opened Common
  import opened LedgerSpec
  import opened LedgerInvariants

  // ---------------------------------------------------------------- folding events

  /** What the event log says of an action. */
  datatype View = View(
    status: Status, attempt: Option<nat>, claimedAt: Option<int>, executionClaims: nat, repairClaims: nat)

  const START := View(AwaitingApproval, None, None, 0, 0)

  predicate Stale(p: Phase) {
    p == ExecutionStale || p == ReconcileStale || p == RepairStale
  }

  function Settle(v: View, status: Status): View {
    v.(status := status, attempt := None, claimedAt := None)
  }

  function Lease(v: View, status: Status, e: Event): View {
    v.(status := status, attempt := e.attempt, claimedAt := Some(e.ts))
  }

  /** The default phases say nothing of the outcome, so a fold cannot use them. */
  function Observe(v: View, e: Event): View {
    match e.phase
    case ActionDeclared => Settle(v, AwaitingApproval)
    case ApprovalQueued => Settle(v, Queued)
    case ApprovalExpired => Settle(v, AwaitingApproval)
    case ExecutionClaimed => Lease(v, Executing, e).(executionClaims := v.executionClaims + 1)
    case ExecutionDispatched => v
    case ExecutionEnded(status) => Settle(v, status)
    case ReadbackUnknown => Settle(v, Unknown)
    case ReconcileClaimed => Lease(v, Reconciling, e)
    case ReconcileEnded(status) => Settle(v, status)
    case ReconcileIdentityConflict => Settle(v, InConflict)
    case RepairClaimed => Lease(v, Repairing, e).(repairClaims := v.repairClaims + 1)
    case RepairEnded(status) => Settle(v, status)
    case OrphanRecovered => Settle(v, Unknown)
    case _ => v
  }

  function Own(events: seq<Event>, id: string): seq<Event> {
    if events == [] then []
    else
      var rest := Own(events[..|events| - 1], id);
      var last := events[|events| - 1];
      if last.action == id then rest + [last] else rest
  }

  function Fold(events: seq<Event>): View {
    if events == [] then START else Observe(Fold(events[..|events| - 1]), events[|events| - 1])
  }

  function Project(r: Row): View {
    View(r.status, r.attempt, r.claimedAt,
         if r.status == AwaitingApproval || r.status == Queued then 0 else 1,
         r.repairAttempts)
  }

  function CountPhase(events: seq<Event>, id: string, p: Phase): nat {
    if events == [] then 0
    else
      var last := events[|events| - 1];
      CountPhase(events[..|events| - 1], id, p) + if last.action == id && last.phase == p then 1 else 0
  }

  // ---------------------------------------------------------------- one call, one action

  /** A caller names the phase of a result as the broker does. */
  ghost predicate Fits(op: Op) {
    match op
    case OpRecordExecution(_, _, input, _) =>
      || (input.target == Executing && input.phase == Some(ExecutionDispatched))
      || (input.target != Executing && input.phase == Some(ExecutionEnded(input.target)))
      || (input.target == Unknown && input.phase == Some(ReadbackUnknown))
    case OpRecordReconcile(_, _, input, _) => input.phase == Some(ReconcileEnded(input.target))
    case OpRecordRepair(_, _, input, _) => input.phase == Some(RepairEnded(input.target))
    case _ => true
  }

  /** How a row may change together with its event; only an approval event touches the approval. */
  ghost predicate Moves(r: Row, r': Row, e: Event) {
    && SameIntent(r, r') && !Terminal(r.status) && !Stale(e.phase) && Project(r') == Observe(Project(r), e)
    && if e.phase == ApprovalQueued then r.status == AwaitingApproval else r'.approval == r.approval
  }

  /** What one call may do to one existing action. */
  ghost predicate Delta(s: Ledger, s': Ledger, id: string)
    requires id in s.rows
  {
    && id in s'.rows
    && (|| (Own(s'.events, id) == Own(s.events, id) && s'.rows[id] == s.rows[id])
        || (exists e :: Own(s'.events, id) == Own(s.events, id) + [e]
             && if Stale(e.phase) then s'.rows[id] == s.rows[id] else Moves(s.rows[id], s'.rows[id], e)))
  }

  lemma AppendOwn(events: seq<Event>, e: Event, id: string)
    ensures Own(events + [e], id) == if e.action == id then Own(events, id) + [e] else Own(events, id)
  {
    assert (events + [e])[..|events|] == events;
  }

  lemma PutDelta(s: Ledger, k: string, r: Row, e: Event, next: nat, id: string)
    requires k in s.rows && id in s.rows && e.action == k && Moves(s.rows[k], r, e)
    ensures Delta(s, Put(s, k, r, e).(nextAttempt := next), id)
  {
    AppendOwn(s.events, e, id);
  }

  lemma AppendDelta(s: Ledger, e: Event, id: string)
    requires id in s.rows && Stale(e.phase)
    ensures Delta(s, Append(s, e), id)
  {
    AppendOwn(s.events, e, id);
  }

  lemma ExpireOneDelta(s: Ledger, k: string, now: int, id: string)
    requires id in s.rows && k in s.rows
    ensures var s' := ExpireOne(s, k, now);
      if id == k
      then id in s'.rows && s'.rows[id] == ExpiredRow(s.rows[id])
        && Own(s'.events, id) == Own(s.events, id) + [Event(id, None, ApprovalExpired, now)]
      else id in s'.rows && s'.rows[id] == s.rows[id] && Own(s'.events, id) == Own(s.events, id)
  {
    AppendOwn(s.events, Event(k, None, ApprovalExpired, now), id);
  }

  lemma ExpireAllDelta(s: Ledger, ids: seq<string>, now: int, id: string)
    requires id in s.rows
    requires forall i, j :: 0 <= i < j < |ids| ==> ids[i] != ids[j]
    ensures var s' := ExpireAll(s, ids, now).0;
      if id in ids && Expirable(s.rows[id], now)
      then id in s'.rows && s'.rows[id] == ExpiredRow(s.rows[id])
        && Own(s'.events, id) == Own(s.events, id) + [Event(id, None, ApprovalExpired, now)]
      else id in s'.rows && s'.rows[id] == s.rows[id] && Own(s'.events, id) == Own(s.events, id)
  {
    if ids != [] {
      var front, k := ids[..|ids| - 1], ids[|ids| - 1];
      var s1 := ExpireAll(s, front, now).0;
      ExpireAllDelta(s, front, now, id);
      assert id in ids <==> id in front || id == k;
      if k in s1.rows {
        ExpireOneDelta(s1, k, now, id);
      }
    }
  }

  lemma RecoverOneDelta(s: Ledger, k: string, now: int, id: string)
    requires id in s.rows && k in s.rows
    ensures var s' := RecoverOne(s, k, now);
      if id == k
      then id in s'.rows && s'.rows[id] == RecoveredRow(s.rows[id], now)
        && Own(s'.events, id) == Own(s.events, id) + [Event(id, s.rows[id].attempt, OrphanRecovered, now)]
      else id in s'.rows && s'.rows[id] == s.rows[id] && Own(s'.events, id) == Own(s.events, id)
  {
    AppendOwn(s.events, Event(k, s.rows[k].attempt, OrphanRecovered, now), id);
  }

  /** A recovery pass settles exactly the leases that are old enough, each with one event. */
  lemma RecoverAllDelta(s: Ledger, ids: seq<string>, ttl: nat, now: int, id: string)
    requires id in s.rows
    requires forall i, j :: 0 <= i < j < |ids| ==> ids[i] != ids[j]
    ensures var s' := RecoverAll(s, ids, ttl, now).0;
      if id in ids && Orphaned(s.rows[id], ttl, now)
      then id in s'.rows && s'.rows[id] == RecoveredRow(s.rows[id], now)
        && Own(s'.events, id) == Own(s.events, id) + [Event(id, s.rows[id].attempt, OrphanRecovered, now)]
      else id in s'.rows && s'.rows[id] == s.rows[id] && Own(s'.events, id) == Own(s.events, id)
  {
    if ids != [] {
      var front, k := ids[..|ids| - 1], ids[|ids| - 1];
      var s1 := RecoverAll(s, front, ttl, now).0;
      RecoverAllDelta(s, front, ttl, now, id);
      assert id in ids <==> id in front || id == k;
      if k in s1.rows {
        RecoverOneDelta(s1, k, now, id);
      }
    }
  }

  lemma ClaimExecutionDelta(s: Ledger, k: string, now: int, id: string)
    requires id in s.rows
    ensures Delta(s, ClaimExecution(s, k, now).0, id)
  {
    if k in s.rows {
      var r, a := s.rows[k], s.nextAttempt;
      if Expirable(r, now) {
        PutDelta(s, k, ExpiredRow(r), Event(k, None, ApprovalExpired, now), a, id);
      } else if r.status == Queued {
        PutDelta(s, k, LeasedRow(r, Executing, a, now), Event(k, Some(a), ExecutionClaimed, now), a + 1, id);
      }
    }
  }

  lemma ClaimReconcileDelta(s: Ledger, k: string, now: int, id: string)
    requires id in s.rows
    ensures Delta(s, ClaimReconcile(s, k, now).0, id)
  {
    if k in s.rows && s.rows[k].status == Unknown {
      var r, a := s.rows[k], s.nextAttempt;
      PutDelta(s, k, LeasedRow(r, Reconciling, a, now), Event(k, Some(a), ReconcileClaimed, now), a + 1, id);
    }
  }

  lemma ClaimRepairDelta(s: Ledger, k: string, now: int, limit: nat, id: string)
    requires id in s.rows
    ensures Delta(s, ClaimRepair(s, k, now, limit).0, id)
  {
    if k in s.rows && Repairable(s.rows[k], now) {
      var r, a := s.rows[k], s.nextAttempt;
      if r.repairAttempts >= limit || ApprovalOver(r, now) {
        PutDelta(s, k, BlockedRow(r), Event(k, None, RepairEnded(RepairBlocked), now), a, id);
      } else {
        PutDelta(s, k, RepairingRow(r, a, now), Event(k, Some(a), RepairClaimed, now), a + 1, id);
      }
    }
  }

  lemma RecordExecutionDelta(s: Ledger, k: string, attempt: nat, input: ExecutionResult, now: int, id: string)
    requires id in s.rows && Fits(OpRecordExecution(k, attempt, input, now))
    ensures Delta(s, RecordExecution(s, k, attempt, input, now).0, id)
  {
    if input.target in EXECUTION_TARGETS && k in s.rows {
      if !Holds(s, k, Executing, attempt) {
        AppendDelta(s, Event(k, Some(attempt), ExecutionStale, now), id);
      } else if !Collides(s, k, input.nodeId) {
        PutDelta(s, k, ExecutionRow(s.rows[k], input),
                 Event(k, Some(attempt), PhaseOr(input.phase, ExecutionPlain), now), s.nextAttempt, id);
      }
    }
  }

  lemma RecordReconcileDelta(s: Ledger, k: string, attempt: nat, input: ReconcileResult, now: int, id: string)
    requires id in s.rows && Fits(OpRecordReconcile(k, attempt, input, now))
    ensures Delta(s, RecordReconcile(s, k, attempt, input, now).0, id)
  {
    if k in s.rows && input.target in RECONCILE_TARGETS {
      if Holds(s, k, Reconciling, attempt) {
        AdoptionDelta(s, k, attempt, input, now, id);
      } else {
        AppendDelta(s, Event(k, Some(attempt), ReconcileStale, now), id);
      }
    }
  }

  lemma AdoptionDelta(s: Ledger, k: string, attempt: nat, input: ReconcileResult, now: int, id: string)
    requires id in s.rows && Fits(OpRecordReconcile(k, attempt, input, now))
    requires k in s.rows && input.target in RECONCILE_TARGETS && Holds(s, k, Reconciling, attempt)
    ensures Delta(s, RecordReconcile(s, k, attempt, input, now).0, id)
  {
    if Collides(s, k, input.nodeId) {
      PutDelta(s, k, ReconcileRow(s.rows[k], WithoutIdentity(input)),
               Event(k, Some(attempt), ReconcileIdentityConflict, now), s.nextAttempt, id);
    } else {
      PutDelta(s, k, ReconcileRow(s.rows[k], input),
               Event(k, Some(attempt), PhaseOr(input.phase, ReconcilePlain), now), s.nextAttempt, id);
    }
  }

  lemma RecordRepairDelta(s: Ledger, k: string, attempt: nat, input: RepairResult, now: int, id: string)
    requires id in s.rows && Fits(OpRecordRepair(k, attempt, input, now))
    ensures Delta(s, RecordRepair(s, k, attempt, input, now).0, id)
  {
    if k in s.rows && input.target in REPAIR_TARGETS {
      if Holds(s, k, Repairing, attempt) {
        SettledRepairDelta(s, k, attempt, input, now, id);
      } else {
        AppendDelta(s, Event(k, Some(attempt), RepairStale, now), id);
      }
    }
  }

  lemma SettledRepairDelta(s: Ledger, k: string, attempt: nat, input: RepairResult, now: int, id: string)
    requires id in s.rows && Fits(OpRecordRepair(k, attempt, input, now))
    requires k in s.rows && input.target in REPAIR_TARGETS && Holds(s, k, Repairing, attempt)
    ensures Delta(s, RecordRepair(s, k, attempt, input, now).0, id)
  {
    PutDelta(s, k, RepairRow(s.rows[k], input),
             Event(k, Some(attempt), PhaseOr(input.phase, RepairPlain), now), s.nextAttempt, id);
  }

  lemma ApproveDelta(s: Ledger, k: string, a: ApprovalRequest, now: int, id: string)
    requires id in s.rows && (k in s.rows ==> LeaseShape(s.rows[k]))
    ensures Delta(s, Approve(s, k, a, now).0, id)
  {
    if k in s.rows && s.rows[k].status == AwaitingApproval {
      PutDelta(s, k, QueuedRow(s.rows[k], a, now), Event(k, None, ApprovalQueued, now), s.nextAttempt, id);
    }
  }

  lemma ExpireDelta(s: Ledger, now: int, id: string)
    requires TableOk(s) && id in s.rows
    ensures Delta(s, ExpireStaleApprovals(s, now).0, id)
  {
    ExpireAllDelta(s, s.order, now, id);
    if Expirable(s.rows[id], now) {
      DeltaBy(s, ExpireStaleApprovals(s, now).0, id, Event(id, None, ApprovalExpired, now));
    }
  }

  lemma DeltaBy(s: Ledger, s': Ledger, id: string, e: Event)
    requires id in s.rows && id in s'.rows && Own(s'.events, id) == Own(s.events, id) + [e]
    requires Moves(s.rows[id], s'.rows[id], e)
    ensures Delta(s, s', id)
  {
  }

  lemma RecoverDelta(s: Ledger, ttl: nat, now: int, id: string)
    requires TableOk(s) && id in s.rows
    ensures Delta(s, RecoverOrphans(s, ttl, now).0, id)
  {
    var s' := RecoverOrphans(s, ttl, now).0;
    RecoverAllDelta(s, s.order, ttl, now, id);
    if Orphaned(s.rows[id], ttl, now) {
      RecoveryMoves(s.rows[id], now, Event(id, s.rows[id].attempt, OrphanRecovered, now));
      DeltaBy(s, s', id, Event(id, s.rows[id].attempt, OrphanRecovered, now));
    } else {
      DeltaNone(s, s', id);
    }
  }

  lemma RecoveryMoves(r: Row, now: int, e: Event)
    requires Leased(r.status) && e.phase == OrphanRecovered
    ensures Moves(r, RecoveredRow(r, now), e)
  {
  }

  lemma DeltaNone(s: Ledger, s': Ledger, id: string)
    requires id in s.rows && id in s'.rows && s'.rows[id] == s.rows[id] && Own(s'.events, id) == Own(s.events, id)
    ensures Delta(s, s', id)
  {
  }

  predicate Claims(op: Op) {
    op.OpClaimExecution? || op.OpClaimReconcile? || op.OpClaimRepair?
  }

  predicate Records(op: Op) {
    op.OpRecordExecution? || op.OpRecordReconcile? || op.OpRecordRepair?
  }

  lemma ClaimOneEvent(s: Ledger, op: Op, id: string)
    requires Claims(op) && id in s.rows
    ensures Delta(s, Perform(s, op), id)
  {
    match op
    case OpClaimExecution(k, now) => ClaimExecutionDelta(s, k, now, id);
    case OpClaimReconcile(k, now) => ClaimReconcileDelta(s, k, now, id);
    case OpClaimRepair(k, now, limit) => ClaimRepairDelta(s, k, now, limit, id);
  }

  lemma RecordOneEvent(s: Ledger, op: Op, id: string)
    requires Records(op) && Fits(op) && id in s.rows
    ensures Delta(s, Perform(s, op), id)
  {
    match op
    case OpRecordExecution(k, attempt, input, now) => RecordExecutionDelta(s, k, attempt, input, now, id);
    case OpRecordReconcile(k, attempt, input, now) => RecordReconcileDelta(s, k, attempt, input, now, id);
    case OpRecordRepair(k, attempt, input, now) => RecordRepairDelta(s, k, attempt, input, now, id);
  }

  lemma DeclareDelta(s: Ledger, op: Op, id: string)
    requires op.OpDeclare? && id in s.rows
    ensures Delta(s, Perform(s, op), id)
  {
    AppendOwn(s.events, Event(op.newId, None, ActionDeclared, op.now), id);
  }

  lemma OtherOneEvent(s: Ledger, op: Op, max: nat, id: string)
    requires Core(s, max) && !Claims(op) && !Records(op) && id in s.rows
    ensures Delta(s, Perform(s, op), id)
  {
    match op
    case OpDeclare(_, _, _, _, _, _, _) => DeclareDelta(s, op, id);
    case OpApprove(k, request, now) => ApproveDelta(s, k, request, now, id);
    case OpExpire(now) => ExpireDelta(s, now, id);
    case OpRecover(ttl, now) => RecoverDelta(s, ttl, now, id);
  }

  /**
   * Whatever public call is made, an existing action gets at most one event from it; its row
   * changes only with a non-stale event, as that event says, and never once it is terminal.
   */
  lemma OneCallOneEvent(s: Ledger, op: Op, max: nat, id: string)
    requires Core(s, max) && Fits(op) && id in s.rows
    ensures Delta(s, Perform(s, op), id)
  {
    if Claims(op) {
      ClaimOneEvent(s, op, id);
    } else if Records(op) {
      RecordOneEvent(s, op, id);
    } else {
      OtherOneEvent(s, op, max, id);
    }
  }

  // ---------------------------------------------------------------- over whole runs

  /** The event log gives back every row. */
  ghost predicate Recorded(s: Ledger) {
    forall id :: id in s.rows ==> Fold(Own(s.events, id)) == Project(s.rows[id])
  }

  lemma OwnNeedsRow(events: seq<Event>, ids: set<string>, id: string)
    requires id !in ids && forall e :: e in events ==> e.action in ids
    ensures Own(events, id) == []
  {
    if events != [] {
      OwnNeedsRow(events[..|events| - 1], ids, id);
      assert events[|events| - 1] in events;
    }
  }

  lemma FoldAppend(events: seq<Event>, e: Event)
    ensures Fold(events + [e]) == Observe(Fold(events), e)
  {
    assert (events + [e])[..|events|] == events;
  }

  lemma StaleObservesNothing(v: View, e: Event)
    requires Stale(e.phase)
    ensures Observe(v, e) == v
  {
  }

  lemma ExpireAllAddsNoRow(s: Ledger, ids: seq<string>, now: int)
    ensures ExpireAll(s, ids, now).0.rows.Keys == s.rows.Keys
    ensures ExpireAll(s, ids, now).0.nextAttempt == s.nextAttempt
  {
  }

  lemma RecoverAllAddsNoRow(s: Ledger, ids: seq<string>, ttl: nat, now: int)
    ensures RecoverAll(s, ids, ttl, now).0.rows.Keys == s.rows.Keys
    ensures RecoverAll(s, ids, ttl, now).0.nextAttempt == s.nextAttempt
  {
  }

  lemma ApproveAddsNoRow(s: Ledger, k: string, request: ApprovalRequest, now: int)
    ensures Approve(s, k, request, now).0.rows.Keys == s.rows.Keys
  {
  }

  lemma ClaimsAddNoRow(s: Ledger, k: string, now: int, limit: nat)
    ensures ClaimExecution(s, k, now).0.rows.Keys == s.rows.Keys
    ensures ClaimReconcile(s, k, now).0.rows.Keys == s.rows.Keys
    ensures ClaimRepair(s, k, now, limit).0.rows.Keys == s.rows.Keys
  {
  }

  lemma RecordExecutionAddsNoRow(s: Ledger, k: string, attempt: nat, input: ExecutionResult, now: int)
    ensures RecordExecution(s, k, attempt, input, now).0.rows.Keys == s.rows.Keys
  {
  }

  lemma RecordReconcileAddsNoRow(s: Ledger, k: string, attempt: nat, input: ReconcileResult, now: int)
    ensures RecordReconcile(s, k, attempt, input, now).0.rows.Keys == s.rows.Keys
  {
  }

  lemma RecordRepairAddsNoRow(s: Ledger, k: string, attempt: nat, input: RepairResult, now: int)
    ensures RecordRepair(s, k, attempt, input, now).0.rows.Keys == s.rows.Keys
  {
  }

  lemma OnlyDeclareAddsRows(s: Ledger, op: Op)
    requires !op.OpDeclare?
    ensures Perform(s, op).rows.Keys == s.rows.Keys
  {
    match op
    case OpApprove(k, request, now) => ApproveAddsNoRow(s, k, request, now);
    case OpExpire(now) => ExpireAllAddsNoRow(s, s.order, now);
    case OpClaimExecution(k, now) => ClaimsAddNoRow(s, k, now, 0);
    case OpClaimReconcile(k, now) => ClaimsAddNoRow(s, k, now, 0);
    case OpClaimRepair(k, now, limit) => ClaimsAddNoRow(s, k, now, limit);
    case OpRecordExecution(k, attempt, input, now) => RecordExecutionAddsNoRow(s, k, attempt, input, now);
    case OpRecordReconcile(k, attempt, input, now) => RecordReconcileAddsNoRow(s, k, attempt, input, now);
    case OpRecordRepair(k, attempt, input, now) => RecordRepairAddsNoRow(s, k, attempt, input, now);
    case OpRecover(ttl, now) => RecoverAllAddsNoRow(s, s.order, ttl, now);
  }

  lemma DeclaredRow(s: Ledger, task: string, slot: string, params: Params, hash: string, reissues: Option<string>,
                    newId: string, now: int, id: string)
    requires id !in s.rows && id in Declare(s, task, slot, params, hash, reissues, newId, now).0.rows
    ensures var s' := Declare(s, task, slot, params, hash, reissues, newId, now).0;
      && newId == id
      && s'.events == s.events + [Event(id, None, ActionDeclared, now)]
      && Project(s'.rows[id]) == START
  {
  }

  lemma FirstOwn(s: Ledger, e: Event)
    requires TableOk(s) && e.action !in s.rows
    ensures Own(s.events + [e], e.action) == [e]
  {
    AppendOwn(s.events, e, e.action);
    OwnNeedsRow(s.events, s.rows.Keys, e.action);
  }

  /** The rows a call adds: only a declaration adds one, with its single event. */
  lemma NewRowIsDeclared(s: Ledger, op: Op, max: nat, id: string)
    requires Core(s, max) && id !in s.rows && id in Perform(s, op).rows
    ensures op.OpDeclare? && op.newId == id
    ensures Own(Perform(s, op).events, id) == [Event(id, None, ActionDeclared, op.now)]
    ensures Project(Perform(s, op).rows[id]) == START
  {
    if op.OpDeclare? {
      DeclaredRow(s, op.task, op.slot, op.params, op.hash, op.reissues, op.newId, op.now, id);
      FirstOwn(s, Event(id, None, ActionDeclared, op.now));
    } else {
      OnlyDeclareAddsRows(s, op);
    }
  }

  lemma DeltaEvent(s: Ledger, s': Ledger, id: string) returns (e: Event)
    requires id in s.rows && Delta(s, s', id) && Own(s'.events, id) != Own(s.events, id)
    ensures Own(s'.events, id) == Own(s.events, id) + [e]
    ensures if Stale(e.phase) then s'.rows[id] == s.rows[id] else Moves(s.rows[id], s'.rows[id], e)
  {
    e :| Own(s'.events, id) == Own(s.events, id) + [e]
      && if Stale(e.phase) then s'.rows[id] == s.rows[id] else Moves(s.rows[id], s'.rows[id], e);
  }

  lemma FoldMoves(own: seq<Event>, e: Event, r: Row, r': Row)
    requires Fold(own) == Project(r)
    requires if Stale(e.phase) then r' == r else Moves(r, r', e)
    ensures Fold(own + [e]) == Project(r')
  {
    FoldAppend(own, e);
    if Stale(e.phase) { StaleObservesNothing(Fold(own), e); }
  }

  lemma DeltaKeepsFold(s: Ledger, s': Ledger, id: string)
    requires id in s.rows && Delta(s, s', id) && Fold(Own(s.events, id)) == Project(s.rows[id])
    ensures Fold(Own(s'.events, id)) == Project(s'.rows[id])
  {
    if Own(s'.events, id) != Own(s.events, id) {
      var e := DeltaEvent(s, s', id);
      FoldMoves(Own(s.events, id), e, s.rows[id], s'.rows[id]);
    }
  }

  lemma PerformKeepsRecorded(s: Ledger, op: Op, max: nat)
    requires Core(s, max) && Recorded(s) && Fits(op)
    ensures Recorded(Perform(s, op))
  {
    var s' := Perform(s, op);
    forall id | id in s'.rows ensures Fold(Own(s'.events, id)) == Project(s'.rows[id]) {
      if id in s.rows {
        OneCallOneEvent(s, op, max, id);
        DeltaKeepsFold(s, s', id);
      } else {
        NewRowIsDeclared(s, op, max, id);
        FoldAppend([], Event(id, None, ActionDeclared, op.now));
        assert [] + [Event(id, None, ActionDeclared, op.now)] == [Event(id, None, ActionDeclared, op.now)];
      }
    }
  }

  lemma ObserveCounts(v: View, e: Event)
    ensures Observe(v, e).executionClaims == v.executionClaims + if e.phase == ExecutionClaimed then 1 else 0
    ensures Observe(v, e).repairClaims == v.repairClaims + if e.phase == RepairClaimed then 1 else 0
  {
  }

  /** The counts a fold keeps are the counts of claim events. */
  lemma {:induction false} FoldCounts(events: seq<Event>, id: string)
    ensures Fold(Own(events, id)).executionClaims == CountPhase(events, id, ExecutionClaimed)
    ensures Fold(Own(events, id)).repairClaims == CountPhase(events, id, RepairClaimed)
  {
    if events != [] {
      var front, last := events[..|events| - 1], events[|events| - 1];
      FoldCounts(front, id);
      var own := Own(front, id);
      if last.action == id {
        FoldAppend(own, last);
        ObserveCounts(Fold(own), last);
        assert Own(events, id) == own + [last];
      } else {
        assert Own(events, id) == own;
      }
    }
  }

  ghost predicate Sound(s: Ledger, max: nat) {
    Core(s, max) && Recorded(s)
  }

  /** Every run of public calls keeps the tables sound and the event log exact. */
  lemma {:induction false} RunIsSound(ops: seq<Op>, max: nat)
    requires forall op :: op in ops ==> WithinBudget(op, max) && Fits(op)
    ensures Sound(PerformAll(EMPTY, ops), max)
  {
    if ops != [] {
      RunIsSound(ops[..|ops| - 1], max);
      var s, op := PerformAll(EMPTY, ops[..|ops| - 1]), ops[|ops| - 1];
      PerformKeepsCore(s, op, max);
      PerformKeepsRecorded(s, op, max);
    }
  }

  /** On every run an action is claimed for execution at most once, and for repair at most `max` times. */
  lemma ClaimsAreBounded(s: Ledger, max: nat, id: string)
    requires Sound(s, max)
    ensures CountPhase(s.events, id, ExecutionClaimed) <= 1
    ensures id in s.rows ==> CountPhase(s.events, id, RepairClaimed) == s.rows[id].repairAttempts
    ensures CountPhase(s.events, id, RepairClaimed) <= max
  {
    FoldCounts(s.events, id);
    if id !in s.rows {
      OwnNeedsRow(s.events, s.rows.Keys, id);
    }
  }

  // ---------------------------------------------------------------- claims and approvals

  predicate WriteClaim(p: Phase) {
    p == ExecutionClaimed || p == RepairClaimed
  }

  /** Every write was claimed while the approval that the row still carries was running. */
  ghost predicate ClaimedLive(own: seq<Event>, r: Row) {
    forall i :: 0 <= i < |own| && WriteClaim(own[i].phase) ==>
      !ApprovalOver(r, own[i].ts) && r.status != AwaitingApproval && r.status != Queued
  }

  ghost predicate AllClaimedLive(s: Ledger) {
    forall id :: id in s.rows ==> ClaimedLive(Own(s.events, id), s.rows[id])
  }

  lemma MovesKeepLive(own: seq<Event>, e: Event, r: Row, r': Row)
    requires ClaimedLive(own, r) && Moves(r, r', e) && RowOk(r')
    ensures ClaimedLive(own + [e], r')
  {
    ObserveCounts(Project(r), e);
    forall i | 0 <= i < |own + [e]| && WriteClaim((own + [e])[i].phase)
      ensures !ApprovalOver(r', (own + [e])[i].ts) && r'.status != AwaitingApproval && r'.status != Queued
    {
      if i < |own| {
        assert own[i] == (own + [e])[i];
      }
    }
  }

  lemma DeltaKeepsLive(s: Ledger, s': Ledger, id: string)
    requires id in s.rows && Delta(s, s', id) && RowOk(s'.rows[id])
    requires ClaimedLive(Own(s.events, id), s.rows[id])
    ensures ClaimedLive(Own(s'.events, id), s'.rows[id])
  {
    if Own(s'.events, id) != Own(s.events, id) {
      var e := DeltaEvent(s, s', id);
      if !Stale(e.phase) {
        MovesKeepLive(Own(s.events, id), e, s.rows[id], s'.rows[id]);
      }
    }
  }

  lemma PerformKeepsLive(s: Ledger, op: Op, max: nat)
    requires Core(s, max) && AllClaimedLive(s) && Fits(op) && WithinBudget(op, max)
    ensures AllClaimedLive(Perform(s, op))
  {
    PerformKeepsCore(s, op, max);
    var s' := Perform(s, op);
    forall id | id in s'.rows ensures ClaimedLive(Own(s'.events, id), s'.rows[id]) {
      if id in s.rows {
        OneCallOneEvent(s, op, max, id);
        DeltaKeepsLive(s, s', id);
      } else {
        NewRowIsLive(s, op, max, id);
      }
    }
  }

  lemma NewRowIsLive(s: Ledger, op: Op, max: nat, id: string)
    requires Core(s, max) && id !in s.rows && id in Perform(s, op).rows
    ensures ClaimedLive(Own(Perform(s, op).events, id), Perform(s, op).rows[id])
  {
    NewRowIsDeclared(s, op, max, id);
    DeclaredIsLive(Event(id, None, ActionDeclared, op.now), Perform(s, op).rows[id]);
  }

  lemma DeclaredIsLive(e: Event, r: Row)
    requires e.phase == ActionDeclared
    ensures ClaimedLive([e], r)
  {
  }

  /** On every run of calls each execution and repair claim was made under a running approval. */
  lemma {:induction false} RunClaimsLive(ops: seq<Op>, max: nat)
    requires forall op :: op in ops ==> WithinBudget(op, max) && Fits(op)
    ensures AllClaimedLive(PerformAll(EMPTY, ops))
  {
    if ops != [] {
      RunClaimsLive(ops[..|ops| - 1], max);
      RunIsSound(ops[..|ops| - 1], max);
      PerformKeepsLive(PerformAll(EMPTY, ops[..|ops| - 1]), ops[|ops| - 1], max);
    }
  }

  lemma {:induction false} OwnHolds(events: seq<Event>, k: nat)
    requires k < |events|
    ensures events[k] in Own(events, events[k].action)
  {
    if k < |events| - 1 {
      OwnHolds(events[..|events| - 1], k);
    }
  }

  // ---------------------------------------------------------------- what any call keeps

  /** A row stays, with its intent; a terminal one stays as it is. This holds for any event phase. */
  ghost predicate Keeps(s: Ledger, s': Ledger, id: string)
    requires id in s.rows
  {
    && id in s'.rows && SameIntent(s.rows[id], s'.rows[id])
    && (Terminal(s.rows[id].status) ==> s'.rows[id] == s.rows[id])
  }

  lemma ClaimsKeep(s: Ledger, k: string, now: int, limit: nat, id: string)
    requires id in s.rows
    ensures Keeps(s, ClaimExecution(s, k, now).0, id)
    ensures Keeps(s, ClaimReconcile(s, k, now).0, id)
    ensures Keeps(s, ClaimRepair(s, k, now, limit).0, id)
  {
  }

  lemma RecordExecutionKeeps(s: Ledger, k: string, attempt: nat, input: ExecutionResult, now: int, id: string)
    requires id in s.rows
    ensures Keeps(s, RecordExecution(s, k, attempt, input, now).0, id)
  {
  }

  lemma RecordReconcileKeeps(s: Ledger, k: string, attempt: nat, input: ReconcileResult, now: int, id: string)
    requires id in s.rows
    ensures Keeps(s, RecordReconcile(s, k, attempt, input, now).0, id)
  {
  }

  lemma RecordRepairKeeps(s: Ledger, k: string, attempt: nat, input: RepairResult, now: int, id: string)
    requires id in s.rows
    ensures Keeps(s, RecordRepair(s, k, attempt, input, now).0, id)
  {
  }

  lemma BatchesKeep(s: Ledger, ttl: nat, now: int, id: string)
    requires TableOk(s) && id in s.rows
    ensures Keeps(s, ExpireStaleApprovals(s, now).0, id)
    ensures Keeps(s, RecoverOrphans(s, ttl, now).0, id)
  {
    ExpireAllDelta(s, s.order, now, id);
    RecoverAllDelta(s, s.order, ttl, now, id);
  }

  lemma DeclareAndApproveKeep(s: Ledger, op: Op, id: string)
    requires (op.OpDeclare? || op.OpApprove?) && id in s.rows
    ensures Keeps(s, Perform(s, op), id)
  {
  }

  lemma PerformKeeps(s: Ledger, op: Op, id: string)
    requires TableOk(s) && id in s.rows
    ensures Keeps(s, Perform(s, op), id)
  {
    match op
    case OpDeclare(task, slot, params, hash, reissues, newId, now) => DeclareAndApproveKeep(s, op, id);
    case OpApprove(k, request, now) => DeclareAndApproveKeep(s, op, id);
    case OpExpire(now) => BatchesKeep(s, 0, now, id);
    case OpClaimExecution(k, now) => ClaimsKeep(s, k, now, 0, id);
    case OpClaimReconcile(k, now) => ClaimsKeep(s, k, now, 0, id);
    case OpClaimRepair(k, now, limit) => ClaimsKeep(s, k, now, limit, id);
    case OpRecordExecution(k, attempt, input, now) => RecordExecutionKeeps(s, k, attempt, input, now, id);
    case OpRecordReconcile(k, attempt, input, now) => RecordReconcileKeeps(s, k, attempt, input, now, id);
    case OpRecordRepair(k, attempt, input, now) => RecordRepairKeeps(s, k, attempt, input, now, id);
    case OpRecover(ttl, now) => BatchesKeep(s, ttl, now, id);
  }

  /** No sequence of calls, whatever phases they name, removes a row or changes its intent. */
  lemma {:induction false} IntentIsKept(s: Ledger, ops: seq<Op>, max: nat, id: string)
    requires Core(s, max) && id in s.rows && forall op :: op in ops ==> WithinBudget(op, max)
    ensures Core(PerformAll(s, ops), max)
    ensures id in PerformAll(s, ops).rows && SameIntent(s.rows[id], PerformAll(s, ops).rows[id])
  {
    if ops != [] {
      IntentIsKept(s, ops[..|ops| - 1], max, id);
      PerformKeeps(PerformAll(s, ops[..|ops| - 1]), ops[|ops| - 1], id);
      PerformKeepsCore(PerformAll(s, ops[..|ops| - 1]), ops[|ops| - 1], max);
    }
  }

  /** A terminal row is never written again, in any column, by any later call. */
  lemma {:induction false} TerminalRowIsFrozen(s: Ledger, ops: seq<Op>, max: nat, id: string)
    requires Core(s, max) && id in s.rows && s.rows[id].status in {Succeeded, Failed, InConflict, RepairBlocked}
    requires forall op :: op in ops ==> WithinBudget(op, max)
    ensures id in PerformAll(s, ops).rows && PerformAll(s, ops).rows[id] == s.rows[id]
  {
    if ops != [] {
      TerminalRowIsFrozen(s, ops[..|ops| - 1], max, id);
      IntentIsKept(s, ops[..|ops| - 1], max, id);
      PerformKeeps(PerformAll(s, ops[..|ops| - 1]), ops[|ops| - 1], id);
    }
  }

  // ---------------------------------------------------------------- fencing

  /** Where the attempt id of a row can come from. */
  ghost predicate FreshOrKept(s: Ledger, s': Ledger, id: string) {
    id in s'.rows && s'.rows[id].attempt.Some? ==>
      || (id in s.rows && s'.rows[id].attempt == s.rows[id].attempt)
      || s'.rows[id].attempt == Some(s.nextAttempt)
  }

  lemma ClaimsAreFresh(s: Ledger, k: string, now: int, limit: nat, id: string)
    ensures FreshOrKept(s, ClaimExecution(s, k, now).0, id)
    ensures FreshOrKept(s, ClaimReconcile(s, k, now).0, id)
    ensures FreshOrKept(s, ClaimRepair(s, k, now, limit).0, id)
  {
  }

  lemma RecordExecutionKeepsAttempt(s: Ledger, k: string, attempt: nat, input: ExecutionResult, now: int, id: string)
    ensures FreshOrKept(s, RecordExecution(s, k, attempt, input, now).0, id)
  {
  }

  lemma RecordReconcileKeepsAttempt(s: Ledger, k: string, attempt: nat, input: ReconcileResult, now: int, id: string)
    ensures FreshOrKept(s, RecordReconcile(s, k, attempt, input, now).0, id)
  {
  }

  lemma RecordRepairKeepsAttempt(s: Ledger, k: string, attempt: nat, input: RepairResult, now: int, id: string)
    ensures FreshOrKept(s, RecordRepair(s, k, attempt, input, now).0, id)
  {
  }

  lemma BatchesKeepAttempt(s: Ledger, ttl: nat, now: int, id: string)
    requires TableOk(s)
    ensures FreshOrKept(s, ExpireStaleApprovals(s, now).0, id)
    ensures FreshOrKept(s, RecoverOrphans(s, ttl, now).0, id)
  {
    ExpireAllAddsNoRow(s, s.order, now);
    RecoverAllAddsNoRow(s, s.order, ttl, now);
    if id in s.rows {
      ExpireAllDelta(s, s.order, now, id);
      RecoverAllDelta(s, s.order, ttl, now, id);
    }
  }

  lemma DeclareKeepsAttempt(s: Ledger, task: string, slot: string, params: Params, hash: string,
                            reissues: Option<string>, newId: string, now: int, id: string)
    ensures FreshOrKept(s, Declare(s, task, slot, params, hash, reissues, newId, now).0, id)
  {
  }

  lemma ApproveKeepsAttempt(s: Ledger, k: string, request: ApprovalRequest, now: int, id: string)
    ensures FreshOrKept(s, Approve(s, k, request, now).0, id)
  {
  }

  lemma AttemptsAreFresh(s: Ledger, op: Op, max: nat, id: string)
    requires Core(s, max)
    ensures FreshOrKept(s, Perform(s, op), id)
  {
    match op
    case OpDeclare(task, slot, params, hash, reissues, newId, now) =>
      DeclareKeepsAttempt(s, task, slot, params, hash, reissues, newId, now, id);
    case OpApprove(k, request, now) => ApproveKeepsAttempt(s, k, request, now, id);
    case OpExpire(now) => BatchesKeepAttempt(s, 0, now, id);
    case OpClaimExecution(k, now) => ClaimsAreFresh(s, k, now, 0, id);
    case OpClaimReconcile(k, now) => ClaimsAreFresh(s, k, now, 0, id);
    case OpClaimRepair(k, now, limit) => ClaimsAreFresh(s, k, now, limit, id);
    case OpRecordExecution(k, attempt, input, now) => RecordExecutionKeepsAttempt(s, k, attempt, input, now, id);
    case OpRecordReconcile(k, attempt, input, now) => RecordReconcileKeepsAttempt(s, k, attempt, input, now, id);
    case OpRecordRepair(k, attempt, input, now) => RecordRepairKeepsAttempt(s, k, attempt, input, now, id);
    case OpRecover(ttl, now) => BatchesKeepAttempt(s, ttl, now, id);
  }

  lemma AttemptCounterGrows(s: Ledger, op: Op)
    ensures Perform(s, op).nextAttempt >= s.nextAttempt
  {
    ExpireAllAddsNoRow(s, s.order, op.now);
    if op.OpRecover? {
      RecoverAllAddsNoRow(s, s.order, op.ttl, op.now);
    }
  }

  /** An attempt that was handed out and is no longer held by any row. */
  ghost predicate Lost(s: Ledger, a: nat) {
    a < s.nextAttempt && forall id :: id in s.rows ==> s.rows[id].attempt != Some(a)
  }

  lemma PerformKeepsLost(s: Ledger, op: Op, max: nat, a: nat)
    requires Core(s, max) && Lost(s, a)
    ensures Lost(Perform(s, op), a)
  {
    AttemptCounterGrows(s, op);
    forall id | id in Perform(s, op).rows ensures Perform(s, op).rows[id].attempt != Some(a) {
      AttemptsAreFresh(s, op, max, id);
    }
  }

  /** A lease once lost is lost for good. */
  lemma {:induction false} LostLeaseStaysLost(s: Ledger, ops: seq<Op>, max: nat, a: nat)
    requires Core(s, max) && Lost(s, a)
    requires forall op :: op in ops ==> WithinBudget(op, max)
    ensures Core(PerformAll(s, ops), max) && Lost(PerformAll(s, ops), a)
  {
    if ops != [] {
      LostLeaseStaysLost(s, ops[..|ops| - 1], max, a);
      PerformKeepsCore(PerformAll(s, ops[..|ops| - 1]), ops[|ops| - 1], max);
      PerformKeepsLost(PerformAll(s, ops[..|ops| - 1]), ops[|ops| - 1], max, a);
    }
  }

  /** The late result of a lost attempt changes no column of any row, whichever call carries it. */
  lemma LateResultChangesNoRow(s: Ledger, ops: seq<Op>, max: nat, a: nat, id: string,
                               e: ExecutionResult, c: ReconcileResult, r: RepairResult, now: int)
    requires Core(s, max) && Lost(s, a)
    requires forall op :: op in ops ==> WithinBudget(op, max)
    ensures RecordExecution(PerformAll(s, ops), id, a, e, now).0.rows == PerformAll(s, ops).rows
    ensures RecordReconcile(PerformAll(s, ops), id, a, c, now).0.rows == PerformAll(s, ops).rows
    ensures RecordRepair(PerformAll(s, ops), id, a, r, now).0.rows == PerformAll(s, ops).rows
    ensures RecordExecution(PerformAll(s, ops), id, a, e, now).1 != Ok(true)
    ensures RecordReconcile(PerformAll(s, ops), id, a, c, now).1 != Ok(true)
    ensures RecordRepair(PerformAll(s, ops), id, a, r, now).1 != Ok(true)
  {
    LostLeaseStaysLost(s, ops, max, a);
  }

  /** Recovery loses exactly the leases aged `ttl` or more, and touches no other row. */
  lemma RecoveryIsExact(s: Ledger, ttl: nat, now: int, max: nat)
    requires Core(s, max)
    ensures RecoverOrphans(s, ttl, now).0.rows.Keys == s.rows.Keys
    ensures forall id :: id in s.rows ==>
      && !Orphaned(RecoverOrphans(s, ttl, now).0.rows[id], ttl, now)
      && (!Orphaned(s.rows[id], ttl, now) ==> RecoverOrphans(s, ttl, now).0.rows[id] == s.rows[id])
      && (Orphaned(s.rows[id], ttl, now) ==>
            && RecoverOrphans(s, ttl, now).0.rows[id].status == Unknown
            && Lost(RecoverOrphans(s, ttl, now).0, s.rows[id].attempt.value))
  {
    var s' := RecoverOrphans(s, ttl, now).0;
    RecoverAllAddsNoRow(s, s.order, ttl, now);
    forall id | id in s.rows ensures if Orphaned(s.rows[id], ttl, now)
        then s'.rows[id] == RecoveredRow(s.rows[id], now) else s'.rows[id] == s.rows[id] {
      RecoverAllDelta(s, s.order, ttl, now, id);
    }
    forall id | id in s.rows && Orphaned(s.rows[id], ttl, now) ensures Lost(s', s.rows[id].attempt.value) {
      forall k | k in s'.rows ensures s'.rows[k].attempt != s.rows[id].attempt {
        assert k in s.rows;
      }
    }
  }
}
