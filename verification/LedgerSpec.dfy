/**
 * The action ledger as transitions on values: one function per service transaction, each
 * giving the new tables and what the call returns. A transaction that throws gives the old
 * tables back.
 */
module LedgerSpec {
  import opened Common
  import opened ActionReadback

  datatype Status =
    | AwaitingApproval | Queued | Executing | Succeeded | PartiallyApplied | Failed
    | Unknown | Reconciling | Repairing | RepairRetryWait | RepairBlocked | InConflict

  const EXECUTION_TARGETS: set<Status> := {Executing, Succeeded, PartiallyApplied, Failed, Unknown}
  const RECONCILE_TARGETS: set<Status> := {Succeeded, PartiallyApplied, InConflict, Unknown}
  const REPAIR_TARGETS: set<Status> := {Succeeded, RepairBlocked, RepairRetryWait, Unknown}

  /** The canonical parameters of a `create_issue` action. */
  datatype Params = Params(repo: string, title: string, body: string, labels: seq<string>)

  datatype Approval = Approval(at: int, approver: string, policy: string, hash: string, expiresAt: int)

  /** The parsed `external_id` column. */
  datatype ExternalRef = ExternalRef(repo: Option<string>, number: int, htmlUrl: string)

  /** The `verdict` column. */
  datatype Note =
    | NoEffect(rateLimited: bool)
    | Readback(verdict: Verdict)
    | Reason(text: string)

  datatype Row = Row(
    task: string,
    slot: string,
    params: Params,
    hash: string,
    reissues: Option<string>,
    status: Status,
    approval: Option<Approval>,
    attempt: Option<nat>,
    claimedAt: Option<int>,
    externalId: Option<ExternalRef>,
    nodeId: Option<string>,
    receipt: Option<Issue>,
    lastError: Option<string>,
    nextReconcile: Option<int>,
    nextRepair: Option<int>,
    repairAttempts: nat,
    verdict: Option<Note>)

  /** Event phases; the `...Plain` ones are the defaults of a caller that names none. */
  datatype Phase =
    | ActionDeclared
    | ApprovalQueued
    | ApprovalExpired
    | ExecutionClaimed
    | ExecutionDispatched
    | ExecutionEnded(status: Status)
    | ReadbackUnknown
    | ExecutionPlain
    | ExecutionStale
    | ReconcileClaimed
    | ReconcileEnded(status: Status)
    | ReconcileIdentityConflict
    | ReconcilePlain
    | ReconcileStale
    | RepairClaimed
    | RepairEnded(status: Status)
    | RepairPlain
    | RepairStale
    | OrphanRecovered

  datatype Event = Event(action: string, attempt: Option<nat>, phase: Phase, ts: int)

  /** `order` lists the action ids by rowid; attempt ids are drawn from `nextAttempt`. */
  datatype Ledger = Ledger(
    rows: map<string, Row>, order: seq<string>, events: seq<Event>, nextAttempt: nat)

  const EMPTY := Ledger(map[], [], [], 0)

  predicate Leased(s: Status) {
    s == Executing || s == Reconciling || s == Repairing
  }

  predicate Terminal(s: Status) {
    s == Succeeded || s == Failed || s == InConflict || s == RepairBlocked
  }

  // ---------------------------------------------------------------- table primitives

  function Append(s: Ledger, e: Event): Ledger {
    s.(events := s.events + [e])
  }

  /** One row update and one event, in one transaction. */
  function Put(s: Ledger, id: string, r: Row, e: Event): Ledger {
    s.(rows := s.rows[id := r], events := s.events + [e])
  }

  function FindIntent(rows: map<string, Row>, order: seq<string>, task: string, slot: string): (r: Option<string>)
    ensures r.Some? ==> r.value in order && r.value in rows && rows[r.value].task == task && rows[r.value].slot == slot
    ensures r.None? ==> forall id :: id in order && id in rows ==> rows[id].task != task || rows[id].slot != slot
  {
    if order == [] then None
    else if order[0] in rows && rows[order[0]].task == task && rows[order[0]].slot == slot then Some(order[0])
    else FindIntent(rows, order[1..], task, slot)
  }

  /** The unique index on connector and external node id. */
  predicate NodeTaken(s: Ledger, id: string, node: string) {
    exists other | other in s.rows :: other != id && s.rows[other].nodeId == Some(node)
  }

  // ---------------------------------------------------------------- declare and approve

  function FreshRow(task: string, slot: string, params: Params, hash: string, reissues: Option<string>): Row {
    Row(task, slot, params, hash, reissues, AwaitingApproval, None, None, None, None, None,
        None, None, None, None, 0, None)
  }

  /** `params` are canonical already and `newId` is what the id factory would return. */
  function Declare(s: Ledger, task: string, slot: string, params: Params, hash: string,
                   reissues: Option<string>, newId: string, now: int): (Ledger, Result<string>)
  {
    if task == "" || slot == "" || reissues == Some("") || Includes(params.body, RESERVED_MARKER_NAME) then
      (s, Err(BadRequest))
    else
      var existing := FindIntent(s.rows, s.order, task, slot);
      if existing.Some? then
        if s.rows[existing.value].hash == hash && s.rows[existing.value].reissues == reissues
        then (s, Ok(existing.value)) else (s, Err(Conflict))
      else if newId in s.rows then (s, Err(Conflict))
      else if reissues.Some? && reissues.value !in s.rows then (s, Err(BadRequest))
      else
        (Put(s, newId, FreshRow(task, slot, params, hash, reissues), Event(newId, None, ActionDeclared, now))
           .(order := s.order + [newId]),
         Ok(newId))
  }

  datatype ApprovalRequest = ApprovalRequest(
    expectedHash: string, approver: string, cookie: bool, policy: string, expiresAt: int)

  function Approve(s: Ledger, id: string, a: ApprovalRequest, now: int): (Ledger, Result<bool>) {
    if id == "" || a.expectedHash == "" || a.approver == "" then (s, Err(BadRequest))
    else if !a.cookie then (s, Err(Forbidden))
    else if a.policy == "" || a.expiresAt <= now then (s, Err(BadRequest))
    else if id !in s.rows then (s, Ok(false))
    else if s.rows[id].hash != a.expectedHash then (s, Err(Conflict))
    else if s.rows[id].status != AwaitingApproval then (s, Ok(false))
    else
      (Put(s, id, QueuedRow(s.rows[id], a, now), Event(id, None, ApprovalQueued, now)),
       Ok(true))
  }

  function QueuedRow(r: Row, a: ApprovalRequest, now: int): Row {
    r.(status := Queued, approval := Some(Approval(now, a.approver, a.policy, r.hash, a.expiresAt)))
  }

  predicate ApprovalOver(r: Row, now: int) {
    r.approval.None? || r.approval.value.expiresAt <= now
  }

  predicate Expirable(r: Row, now: int) {
    r.status == Queued && ApprovalOver(r, now)
  }

  function ExpiredRow(r: Row): Row {
    r.(status := AwaitingApproval, attempt := None, claimedAt := None)
  }

  function ExpireOne(s: Ledger, id: string, now: int): Ledger
    requires id in s.rows
  {
    Put(s, id, ExpiredRow(s.rows[id]), Event(id, None, ApprovalExpired, now))
  }

  function ExpireAll(s: Ledger, ids: seq<string>, now: int): (Ledger, nat) {
    if ids == [] then (s, 0)
    else
      var (s', n) := ExpireAll(s, ids[..|ids| - 1], now);
      var id := ids[|ids| - 1];
      if id in s'.rows && Expirable(s'.rows[id], now) then (ExpireOne(s', id, now), n + 1) else (s', n)
  }

  function ExpireStaleApprovals(s: Ledger, now: int): (Ledger, nat) {
    ExpireAll(s, s.order, now)
  }

  // ---------------------------------------------------------------- claims

  function LeasedRow(r: Row, status: Status, a: nat, now: int): Row {
    r.(status := status, attempt := Some(a), claimedAt := Some(now))
  }

  function ClaimExecution(s: Ledger, id: string, now: int): (Ledger, Option<nat>) {
    if id !in s.rows then (s, None)
    else
      var r := s.rows[id];
      if Expirable(r, now) then (ExpireOne(s, id, now), None)
      else if r.status != Queued || r.approval.None? || r.approval.value.hash != r.hash then (s, None)
      else
        (Put(s, id, LeasedRow(r, Executing, s.nextAttempt, now),
             Event(id, Some(s.nextAttempt), ExecutionClaimed, now)).(nextAttempt := s.nextAttempt + 1),
         Some(s.nextAttempt))
  }

  predicate ReconcileDue(r: Row, now: int) {
    r.nextReconcile.None? || r.nextReconcile.value <= now
  }

  function ClaimReconcile(s: Ledger, id: string, now: int): (Ledger, Option<nat>) {
    if id !in s.rows || s.rows[id].status != Unknown then (s, None)
    else if !ReconcileDue(s.rows[id], now) then (s.(nextAttempt := s.nextAttempt + 1), None)
    else
      (Put(s, id, LeasedRow(s.rows[id], Reconciling, s.nextAttempt, now),
           Event(id, Some(s.nextAttempt), ReconcileClaimed, now)).(nextAttempt := s.nextAttempt + 1),
       Some(s.nextAttempt))
  }

  predicate Repairable(r: Row, now: int) {
    || r.status == PartiallyApplied
    || (r.status == RepairRetryWait && r.nextRepair.Some? && r.nextRepair.value <= now)
  }

  datatype RepairClaim = NotClaimed | Blocked(maxAttempts: bool) | Claimed(attempt: nat)

  function BlockedRow(r: Row): Row {
    r.(status := RepairBlocked, attempt := None, claimedAt := None, nextRepair := None)
  }

  function RepairingRow(r: Row, a: nat, now: int): Row {
    r.(status := Repairing, attempt := Some(a), claimedAt := Some(now),
       repairAttempts := r.repairAttempts + 1, nextRepair := None)
  }

  function ClaimRepair(s: Ledger, id: string, now: int, max: nat): (Ledger, RepairClaim) {
    if id !in s.rows || !Repairable(s.rows[id], now) then (s, NotClaimed)
    else
      var r := s.rows[id];
      if r.repairAttempts >= max || ApprovalOver(r, now) then
        (Put(s, id, BlockedRow(r), Event(id, None, RepairEnded(RepairBlocked), now)),
         Blocked(r.repairAttempts >= max))
      else
        (Put(s, id, RepairingRow(r, s.nextAttempt, now),
             Event(id, Some(s.nextAttempt), RepairClaimed, now)).(nextAttempt := s.nextAttempt + 1),
         Claimed(s.nextAttempt))
  }

  // ---------------------------------------------------------------- records

  predicate Holds(s: Ledger, id: string, status: Status, attempt: nat) {
    id in s.rows && s.rows[id].status == status && s.rows[id].attempt == Some(attempt)
  }

  datatype ExecutionResult = ExecutionResult(
    target: Status,
    externalId: Field<ExternalRef>,
    nodeId: Field<string>,
    receipt: Field<Issue>,
    lastError: Field<string>,
    nextReconcile: Field<int>,
    verdict: Field<Note>,
    phase: Option<Phase>)

  function PhaseOr(p: Option<Phase>, fallback: Phase): Phase {
    if p.Some? then p.value else fallback
  }

  predicate Collides(s: Ledger, id: string, node: Field<string>) {
    node.Set? && node.value.Some? && NodeTaken(s, id, node.value.value)
  }

  function ExecutionRow(r: Row, input: ExecutionResult): Row {
    var keep := input.target == Executing;
    r.(status := input.target,
       externalId := Pick(input.externalId, r.externalId),
       nodeId := Pick(input.nodeId, r.nodeId),
       receipt := Pick(input.receipt, r.receipt),
       lastError := Pick(input.lastError, r.lastError),
       nextReconcile := Pick(input.nextReconcile, r.nextReconcile),
       verdict := Pick(input.verdict, r.verdict),
       attempt := if keep then r.attempt else None,
       claimedAt := if keep then r.claimedAt else None)
  }

  function RecordExecution(s: Ledger, id: string, attempt: nat, input: ExecutionResult, now: int)
    : (Ledger, Result<bool>)
  {
    if input.target !in EXECUTION_TARGETS then (s, Err(BadRequest))
    else if id !in s.rows then (s, Ok(false))
    else if !Holds(s, id, Executing, attempt) then
      (Append(s, Event(id, Some(attempt), ExecutionStale, now)), Ok(false))
    else if Collides(s, id, input.nodeId) then (s, Err(Conflict))
    else
      (Put(s, id, ExecutionRow(s.rows[id], input),
           Event(id, Some(attempt), PhaseOr(input.phase, ExecutionPlain), now)),
       Ok(true))
  }

  datatype ReconcileResult = ReconcileResult(
    target: Status,
    externalId: Field<ExternalRef>,
    nodeId: Field<string>,
    receipt: Field<Issue>,
    nextReconcile: Option<int>,
    verdict: Field<Note>,
    phase: Option<Phase>)

  const IDENTITY_CONFLICT := Reason("external_identity_conflict")

  function ReconcileRow(r: Row, input: ReconcileResult): Row {
    r.(status := input.target,
       externalId := Pick(input.externalId, r.externalId),
       nodeId := Pick(input.nodeId, r.nodeId),
       receipt := Pick(input.receipt, r.receipt),
       nextReconcile := if input.target == Unknown then input.nextReconcile else None,
       verdict := Pick(input.verdict, r.verdict),
       attempt := None,
       claimedAt := None)
  }

  /** The second attempt after the unique index refused the first. */
  function WithoutIdentity(input: ReconcileResult): ReconcileResult {
    input.(target := InConflict, externalId := Keep, nodeId := Keep, nextReconcile := None,
           verdict := Set(Some(IDENTITY_CONFLICT)))
  }

  function RecordReconcile(s: Ledger, id: string, attempt: nat, input: ReconcileResult, now: int)
    : (Ledger, Result<bool>)
  {
    if input.target !in RECONCILE_TARGETS then (s, Err(BadRequest))
    else if input.target == Unknown && input.nextReconcile.None? then (s, Err(BadRequest))
    else if id !in s.rows then (s, Ok(false))
    else if !Holds(s, id, Reconciling, attempt) then
      (Append(s, Event(id, Some(attempt), ReconcileStale, now)), Ok(false))
    else if Collides(s, id, input.nodeId) then
      (Put(s, id, ReconcileRow(s.rows[id], WithoutIdentity(input)),
           Event(id, Some(attempt), ReconcileIdentityConflict, now)),
       Ok(true))
    else
      (Put(s, id, ReconcileRow(s.rows[id], input),
           Event(id, Some(attempt), PhaseOr(input.phase, ReconcilePlain), now)),
       Ok(true))
  }

  datatype RepairResult = RepairResult(
    target: Status,
    receipt: Field<Issue>,
    lastError: Field<string>,
    verdict: Field<Note>,
    nextRepair: Option<int>,
    nextReconcile: Option<int>,
    phase: Option<Phase>)

  function RepairRow(r: Row, input: RepairResult): Row {
    r.(status := input.target,
       receipt := Pick(input.receipt, r.receipt),
       lastError := Pick(input.lastError, r.lastError),
       verdict := Pick(input.verdict, r.verdict),
       nextRepair := if input.target == RepairRetryWait then input.nextRepair else None,
       nextReconcile := if input.target == Unknown then input.nextReconcile else None,
       attempt := None,
       claimedAt := None)
  }

  function RecordRepair(s: Ledger, id: string, attempt: nat, input: RepairResult, now: int)
    : (Ledger, Result<bool>)
  {
    if input.target !in REPAIR_TARGETS then (s, Err(BadRequest))
    else if input.target == RepairRetryWait && input.nextRepair.None? then (s, Err(BadRequest))
    else if input.target == Unknown && input.nextReconcile.None? then (s, Err(BadRequest))
    else if id !in s.rows then (s, Ok(false))
    else if !Holds(s, id, Repairing, attempt) then
      (Append(s, Event(id, Some(attempt), RepairStale, now)), Ok(false))
    else
      (Put(s, id, RepairRow(s.rows[id], input),
           Event(id, Some(attempt), PhaseOr(input.phase, RepairPlain), now)),
       Ok(true))
  }

  // ---------------------------------------------------------------- orphan recovery

  predicate Orphaned(r: Row, ttl: nat, now: int) {
    Leased(r.status) && r.claimedAt.Some? && now - r.claimedAt.value >= ttl
  }

  function RecoveredRow(r: Row, now: int): Row {
    r.(status := Unknown, attempt := None, claimedAt := None, nextReconcile := Some(now))
  }

  function RecoverOne(s: Ledger, id: string, now: int): Ledger
    requires id in s.rows
  {
    Put(s, id, RecoveredRow(s.rows[id], now), Event(id, s.rows[id].attempt, OrphanRecovered, now))
  }

  function RecoverAll(s: Ledger, ids: seq<string>, ttl: nat, now: int): (Ledger, nat) {
    if ids == [] then (s, 0)
    else
      var (s', n) := RecoverAll(s, ids[..|ids| - 1], ttl, now);
      var id := ids[|ids| - 1];
      if id in s'.rows && Orphaned(s'.rows[id], ttl, now) then (RecoverOne(s', id, now), n + 1) else (s', n)
  }

  function RecoverOrphans(s: Ledger, ttl: nat, now: int): (Ledger, nat) {
    RecoverAll(s, s.order, ttl, now)
  }

  // ---------------------------------------------------------------- any public call

  datatype Op =
    | OpDeclare(task: string, slot: string, params: Params, hash: string, reissues: Option<string>,
                newId: string, now: int)
    | OpApprove(id: string, request: ApprovalRequest, now: int)
    | OpExpire(now: int)
    | OpClaimExecution(id: string, now: int)
    | OpClaimReconcile(id: string, now: int)
    | OpClaimRepair(id: string, now: int, max: nat)
    | OpRecordExecution(id: string, attempt: nat, execution: ExecutionResult, now: int)
    | OpRecordReconcile(id: string, attempt: nat, reconcile: ReconcileResult, now: int)
    | OpRecordRepair(id: string, attempt: nat, repair: RepairResult, now: int)
    | OpRecover(ttl: nat, now: int)

  function Perform(s: Ledger, op: Op): Ledger {
    match op
    case OpDeclare(task, slot, params, hash, reissues, newId, now) =>
      Declare(s, task, slot, params, hash, reissues, newId, now).0
    case OpApprove(id, request, now) => Approve(s, id, request, now).0
    case OpExpire(now) => ExpireStaleApprovals(s, now).0
    case OpClaimExecution(id, now) => ClaimExecution(s, id, now).0
    case OpClaimReconcile(id, now) => ClaimReconcile(s, id, now).0
    case OpClaimRepair(id, now, max) => ClaimRepair(s, id, now, max).0
    case OpRecordExecution(id, attempt, input, now) => RecordExecution(s, id, attempt, input, now).0
    case OpRecordReconcile(id, attempt, input, now) => RecordReconcile(s, id, attempt, input, now).0
    case OpRecordRepair(id, attempt, input, now) => RecordRepair(s, id, attempt, input, now).0
    case OpRecover(ttl, now) => RecoverOrphans(s, ttl, now).0
  }

  function PerformAll(s: Ledger, ops: seq<Op>): Ledger {
    if ops == [] then s else Perform(PerformAll(s, ops[..|ops| - 1]), ops[|ops| - 1])
  }

  lemma OneCall(s: Ledger, op: Op)
    ensures PerformAll(s, [op]) == Perform(s, op)
  {
    assert [op][..0] == [];
    assert PerformAll(s, [op][..0]) == s;
  }
}
