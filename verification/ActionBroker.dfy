/**
 * The broker in its own form: asynchronous operations over the ledger object, and the two
 * drive loops. What happens while an operation awaits is a script: the calls other parties
 * make meanwhile, then the gateway's answer. A script that runs out is a crash.
 */
module ActionBroker {
  import opened Common
  import opened ActionReadback
  import opened LedgerSpec
  import opened LedgerInvariants
  import opened LedgerHistory
  import opened LedgerAnswers
  import opened BrokerSteps
  import opened ActionLedgerService

  datatype Await = Await(env: seq<Op>, reply: Reply, now: int)

  /** The sorts of await: a write, a search, or a read of an issue. */
  datatype Want = WantWrite | WantSearch | WantGet

  function WantOf(stage: Stage): Option<Want> {
    match stage
    case Creating => Some(WantWrite)
    case Labelling(_) => Some(WantWrite)
    case Searching => Some(WantSearch)
    case ReadingBack(_) => Some(WantGet)
    case Fetching(_, _) => Some(WantGet)
    case Inspecting => Some(WantGet)
    case Confirming(_) => Some(WantGet)
    case _ => None
  }

  /** Which answers end an await; a failed write is answered by the error it threw. */
  predicate Accepts(want: Want, reply: Reply) {
    match want
    case WantWrite => reply.WriteReply?
    case WantSearch => reply.SearchReply? || reply.Fault?
    case WantGet => reply.GetReply? || reply.Fault?
  }

  // ---------------------------------------------------------------- the specification

  /** An operation from one of its awaits to its end, as the stages of `BrokerSteps` play it. */
  function PlayOut(c: Config, s: Ledger, w: Worker, script: seq<Await>): (Ledger, Option<Outcome>)
    decreases |script|
  {
    if w.stage.Finished? then (s, Some(w.stage.outcome))
    else if script == [] then (s, None)
    else
      var s1 := PerformAll(s, script[0].env);
      if WantOf(w.stage).None? || !Accepts(WantOf(w.stage).value, script[0].reply) then
        PlayOut(c, s1, w, script[1..])
      else
        var r := React(c, s1, w, script[0].reply, script[0].now);
        PlayOut(c, PerformAll(s1, r.ops), w.(stage := r.stage), script[1..])
  }

  function Land(c: Config, s: Ledger, w: Worker, r: Reaction, script: seq<Await>): (Ledger, Option<Outcome>) {
    PlayOut(c, PerformAll(s, r.ops), w.(stage := r.stage), script)
  }

  function Operate(c: Config, s: Ledger, w: Worker, now: int, script: seq<Await>): (Ledger, Option<Outcome>) {
    Land(c, s, w, Begin(c, s, w, now), script)
  }

  function Attempts(s: Ledger, id: string): nat {
    if id in s.rows then s.rows[id].repairAttempts else 0
  }

  // ---------------------------------------------------------------- accounting

  const RECONCILE_OUTCOMES: set<Outcome> :=
    {Reported(Succeeded), Reported(PartiallyApplied), Reported(InConflict), Reported(Unknown), StaleOutcome}

  datatype ReconcileSummary = ReconcileSummary(recovered: nat, claimed: nat, outcomes: map<Outcome, nat>)

  function ReconcileTotal(outcomes: map<Outcome, nat>): nat
    requires outcomes.Keys == RECONCILE_OUTCOMES
  {
    outcomes[Reported(Succeeded)] + outcomes[Reported(PartiallyApplied)] + outcomes[Reported(InConflict)]
    + outcomes[Reported(Unknown)] + outcomes[StaleOutcome]
  }

  // ---------------------------------------------------------------- what a drive lists

  /** An unknown row whose time, if it has one, has come. */
  ghost predicate ReconcileIsDue(r: Row, now: int) {
    r.status == Unknown && (r.nextReconcile.None? || r.nextReconcile.value <= now)
  }

  ghost function DueForReconcile(s: Ledger, now: int): set<string> {
    set id | id in s.rows && ReconcileIsDue(s.rows[id], now)
  }

  ghost function DueForRepair(s: Ledger, now: int): set<string> {
    set id | id in s.rows && RepairIsDue(s.rows[id], now)
  }

  /** The ids a reconcile drive works through. */
  function ReconcilableIds(s: Ledger, ids: seq<string>, now: int): seq<string> {
    if ids == [] then []
    else
      var rest := ReconcilableIds(s, ids[..|ids| - 1], now);
      var id := ids[|ids| - 1];
      if id in s.rows && s.rows[id].status == Unknown && ReconcileDue(s.rows[id], now) then rest + [id] else rest
  }

  function RepairableIds(s: Ledger, ids: seq<string>, now: int): seq<string> {
    if ids == [] then []
    else
      var rest := RepairableIds(s, ids[..|ids| - 1], now);
      var id := ids[|ids| - 1];
      if id in s.rows && Repairable(s.rows[id], now) then rest + [id] else rest
  }

  /** A list goes through a set: each member once. */
  ghost predicate GoesThrough(ids: seq<string>, due: set<string>) {
    && (forall id :: id in ids <==> id in due)
    && (forall i, j :: 0 <= i < j < |ids| ==> ids[i] != ids[j])
    && |ids| == |due|
  }

  lemma OneMoreListed(ids: seq<string>, due: set<string>, id: string)
    requires GoesThrough(ids, due) && id !in due
    ensures GoesThrough(ids + [id], due + {id})
  {
  }

  lemma {:induction false} ReconcilableIsExact(s: Ledger, ids: seq<string>, now: int)
    requires forall i, j :: 0 <= i < j < |ids| ==> ids[i] != ids[j]
    ensures GoesThrough(ReconcilableIds(s, ids, now), Chosen(ids, DueForReconcile(s, now)))
  {
    if ids != [] {
      var front, due := ids[..|ids| - 1], DueForReconcile(s, now);
      ReconcilableIsExact(s, front, now);
      ChosenGrows(ids, due);
      if ids[|ids| - 1] in due { OneMoreListed(ReconcilableIds(s, front, now), Chosen(front, due), ids[|ids| - 1]); }
    }
  }

  lemma {:induction false} RepairableIsExact(s: Ledger, ids: seq<string>, now: int)
    requires forall i, j :: 0 <= i < j < |ids| ==> ids[i] != ids[j]
    ensures GoesThrough(RepairableIds(s, ids, now), Chosen(ids, DueForRepair(s, now)))
  {
    if ids != [] {
      var front, due := ids[..|ids| - 1], DueForRepair(s, now);
      RepairableIsExact(s, front, now);
      ChosenGrows(ids, due);
      if ids[|ids| - 1] in due { OneMoreListed(RepairableIds(s, front, now), Chosen(front, due), ids[|ids| - 1]); }
    }
  }

  /** Each drive goes through exactly the rows that are due, each once. */
  lemma DrivesListWhatIsDue(s: Ledger, now: int)
    requires TableOk(s)
    ensures GoesThrough(ReconcilableIds(s, s.order, now), DueForReconcile(s, now))
    ensures GoesThrough(RepairableIds(s, s.order, now), DueForRepair(s, now))
  {
    ReconcilableIsExact(s, s.order, now);
    RepairableIsExact(s, s.order, now);
    assert Chosen(s.order, DueForReconcile(s, now)) == DueForReconcile(s, now);
    assert Chosen(s.order, DueForRepair(s, now)) == DueForRepair(s, now);
  }

  /** The scan after a recovery pass lists what was due before it and every orphan of the pass, each once. */
  lemma RecoveryFeedsDrive(s: Ledger, ttl: nat, now: int)
    requires TableOk(s)
    ensures var (after, n) := RecoverOrphans(s, ttl, now);
      && n == |Orphans(s, ttl, now)|
      && DueForReconcile(after, now) == Orphans(s, ttl, now) + DueForReconcile(s, now)
      && GoesThrough(ReconcilableIds(after, after.order, now), Orphans(s, ttl, now) + DueForReconcile(s, now))
      && (forall id :: id in s.rows && id !in Orphans(s, ttl, now) ==> id in after.rows && after.rows[id] == s.rows[id])
      && |s.events| <= |after.events|
  {
    var after := RecoverOrphans(s, ttl, now).0;
    RecoveryCountIsExact(s, ttl, now);
    RecoveredRows(s, ttl, now);
    RecoverAllLogGrows(s, s.order, ttl, now);
    DueAfterRecovery(s, after, ttl, now);
    ReconcilableIsExact(after, after.order, now);
    assert Chosen(after.order, DueForReconcile(after, now)) == DueForReconcile(after, now);
  }

  lemma RecoveredRows(s: Ledger, ttl: nat, now: int)
    requires TableOk(s)
    ensures var after := RecoverOrphans(s, ttl, now).0;
      && after.rows.Keys == s.rows.Keys
      && forall id :: id in s.rows ==>
           after.rows[id] == if Orphaned(s.rows[id], ttl, now) then RecoveredRow(s.rows[id], now) else s.rows[id]
  {
    RecoveryCounts(s, s.order, ttl, now);
    forall id | id in s.rows {
      RecoverAllDelta(s, s.order, ttl, now, id);
    }
  }

  lemma DueAfterRecovery(s: Ledger, after: Ledger, ttl: nat, now: int)
    requires after.rows.Keys == s.rows.Keys
    requires forall id :: id in s.rows ==>
      after.rows[id] == if Orphaned(s.rows[id], ttl, now) then RecoveredRow(s.rows[id], now) else s.rows[id]
    ensures DueForReconcile(after, now) == Orphans(s, ttl, now) + DueForReconcile(s, now)
  {
    forall id ensures id in DueForReconcile(after, now) <==> id in Orphans(s, ttl, now) || id in DueForReconcile(s, now) {}
  }

  /** No other party calls the ledger while the operations of a drive await. */
  predicate Quiet(scripts: seq<seq<Await>>) {
    forall k :: 0 <= k < |scripts| ==> QuietScript(scripts[k])
  }

  predicate QuietScript(script: seq<Await>) {
    forall j :: 0 <= j < |script| ==> script[j].env == []
  }

  lemma RecoverAllLogGrows(s: Ledger, ids: seq<string>, ttl: nat, now: int)
    ensures |RecoverAll(s, ids, ttl, now).0.events| >= |s.events|
    ensures RecoverAll(s, ids, ttl, now).0.order == s.order
  {
  }

  /** An event of the action with the phase has been logged since. */
  ghost predicate LoggedSince(from: nat, events: seq<Event>, id: string, phase: Phase) {
    exists k :: from <= k < |events| && events[k].action == id && events[k].phase == phase
  }

  lemma LogStays(from: nat, events: seq<Event>, events': seq<Event>, id: string, phase: Phase)
    requires LoggedSince(from, events, id, phase) && |events| <= |events'| && events'[..|events|] == events
    ensures LoggedSince(from, events', id, phase)
  {
    var k :| from <= k < |events| && events[k].action == id && events[k].phase == phase;
    assert events'[k] == events'[..|events|][k];
  }

  predicate ReconcileStage(stage: Stage) {
    stage.ReconcileStart? || stage.Searching? || stage.Fetching?
    || (stage.Finished? && stage.outcome in RECONCILE_OUTCOMES)
  }

  lemma PersistOutcome(c: Config, s: Ledger, w: Worker, result: ReconcileResult, calls: seq<Call>, now: int)
    requires result.target in RECONCILE_TARGETS && (result.target == Unknown ==> result.nextReconcile.Some?)
    ensures ReconcileStage(Persist(s, w, result, calls, now).stage)
  {
  }

  lemma ReconcileReaction(c: Config, s: Ledger, w: Worker, reply: Reply, now: int)
    requires ReconcileStage(w.stage)
    ensures ReconcileStage(React(c, s, w, reply, now).stage)
  {
    match (w.stage, reply)
    case (Searching, Fault(_)) => PersistOutcome(c, s, w, UnknownReconcile(c, "search_fault", now), [], now);
    case (Searching, SearchReply(count)) =>
      DecisionOutcome(c, s, w, [], [], now);
    case (Fetching(count, fetched), GetReply(issue)) =>
      DecisionOutcome(c, s, w, fetched + [issue], [Read(w.id, issue)], now);
    case (Fetching(_, _), Fault(_)) => PersistOutcome(c, s, w, UnknownReconcile(c, "candidate_get_fault", now), [], now);
    case _ =>
  }

  lemma DecisionOutcome(c: Config, s: Ledger, w: Worker, fetched: seq<Option<Issue>>, calls: seq<Call>, now: int)
    ensures var e := ExpectedOf(w);
      ReconcileStage(Persist(s, w, DecisionResult(c, e, Decide(c.lower, e, fetched), now), calls, now).stage)
  {
    var e := ExpectedOf(w);
    PersistOutcome(c, s, w, DecisionResult(c, e, Decide(c.lower, e, fetched), now), calls, now);
  }

  lemma {:induction false} PlayOutOutcomes(c: Config, s: Ledger, w: Worker, script: seq<Await>)
    requires ReconcileStage(w.stage)
    ensures PlayOut(c, s, w, script).1.Some? ==> PlayOut(c, s, w, script).1.value in RECONCILE_OUTCOMES
    decreases |script|
  {
    if !w.stage.Finished? && script != [] {
      var s1 := PerformAll(s, script[0].env);
      if WantOf(w.stage).None? || !Accepts(WantOf(w.stage).value, script[0].reply) {
        PlayOutOutcomes(c, s1, w, script[1..]);
      } else {
        var r := React(c, s1, w, script[0].reply, script[0].now);
        ReconcileReaction(c, s1, w, script[0].reply, script[0].now);
        PlayOutOutcomes(c, PerformAll(s1, r.ops), w.(stage := r.stage), script[1..]);
      }
    }
  }

  /** A reconcile that ends reports one of the five outcomes the drive counts. */
  lemma ReconcileOutcomes(c: Config, s: Ledger, w: Worker, now: int, script: seq<Await>)
    requires w.stage == ReconcileStart
    ensures Operate(c, s, w, now, script).1.Some? ==> Operate(c, s, w, now, script).1.value in RECONCILE_OUTCOMES
  {
    var r := Begin(c, s, w, now);
    PlayOutOutcomes(c, PerformAll(s, r.ops), w.(stage := r.stage), script);
  }

  const REPAIR_OUTCOMES: set<Outcome> :=
    {Reported(Succeeded), Reported(RepairBlocked), Reported(RepairRetryWait), Reported(Unknown), StaleOutcome}

  datatype RepairSummary = RepairSummary(scanned: nat, claimed: nat, blocked: nat, outcomes: map<Outcome, nat>)

  function RepairTotal(outcomes: map<Outcome, nat>): nat
    requires outcomes.Keys == REPAIR_OUTCOMES
  {
    outcomes[Reported(Succeeded)] + outcomes[Reported(RepairBlocked)] + outcomes[Reported(RepairRetryWait)]
    + outcomes[Reported(Unknown)] + outcomes[StaleOutcome]
  }

  predicate RepairStage(stage: Stage) {
    stage.RepairStart? || stage.Inspecting? || stage.Labelling? || stage.Confirming?
    || (stage.Finished? && stage.outcome in REPAIR_OUTCOMES)
  }

  predicate WellTimed(result: RepairResult) {
    && result.target in REPAIR_TARGETS
    && (result.target == RepairRetryWait ==> result.nextRepair.Some?)
    && (result.target == Unknown ==> result.nextReconcile.Some?)
  }

  lemma EndRepairOutcome(s: Ledger, w: Worker, result: RepairResult, calls: seq<Call>, now: int)
    requires WellTimed(result)
    ensures RepairStage(EndRepair(s, w, result, calls, now).stage)
  {
  }

  lemma InspectOutcome(c: Config, s: Ledger, w: Worker, reply: Reply, now: int)
    requires (reply.GetReply? || reply.Fault?) && LocatorOf(w.action).Some?
    ensures RepairStage(AfterInspect(c, s, w, reply, now).stage)
  {
    match reply
    case Fault(error) => EndRepairOutcome(s, w, UnknownRepair(c, w, Set(Some(error)), Keep, "ambiguous_repair"), [], now);
    case GetReply(issue) =>
      EndRepairOutcome(s, w, UnknownRepair(c, w, Keep, Set(issue), "readback_mismatch"), [Read(w.id, issue)], now);
      EndRepairOutcome(s, w, RepairSucceeded(issue, FullReadbackValid), [Read(w.id, issue)], now);
  }

  lemma LabelsOutcome(c: Config, s: Ledger, w: Worker, initial: Option<Issue>, value: Option<Value>, error: string, now: int)
    ensures RepairStage(AfterLabels(c, s, w, initial, value, error, now).stage)
  {
    EndRepairOutcome(s, w, RepairDenied(error, initial), [], now);
    EndRepairOutcome(s, w, RetryOrBlock(c, w, "rate_limited", Set(Some(error)), initial), [], now);
    EndRepairOutcome(s, w, UnknownRepair(c, w, Set(Some(error)), Set(initial), "ambiguous_repair"), [], now);
  }

  lemma ConfirmOutcome(c: Config, s: Ledger, w: Worker, initial: Option<Issue>, reply: Reply, now: int)
    requires reply.GetReply? || reply.Fault?
    ensures RepairStage(AfterConfirm(c, s, w, initial, reply, now).stage)
  {
    match reply
    case Fault(error) =>
      EndRepairOutcome(s, w, UnknownRepair(c, w, Set(Some(error)), Set(initial), "ambiguous_repair"), [], now);
    case GetReply(issue) =>
      EndRepairOutcome(s, w, RepairSucceeded(issue, FullReadbackValid), [Read(w.id, issue)], now);
      EndRepairOutcome(s, w, RetryOrBlock(c, w, "still_missing_labels", Keep, issue), [Read(w.id, issue)], now);
      EndRepairOutcome(s, w, UnknownRepair(c, w, Keep, Set(issue), "readback_mismatch"), [Read(w.id, issue)], now);
  }

  lemma RepairReaction(c: Config, s: Ledger, w: Worker, reply: Reply, now: int)
    requires RepairStage(w.stage)
    ensures RepairStage(React(c, s, w, reply, now).stage)
  {
    match (w.stage, reply)
    case (Inspecting, GetReply(_)) => if LocatorOf(w.action).Some? { InspectOutcome(c, s, w, reply, now); }
    case (Inspecting, Fault(_)) => if LocatorOf(w.action).Some? { InspectOutcome(c, s, w, reply, now); }
    case (Labelling(initial), WriteReply(value, error)) => LabelsOutcome(c, s, w, initial, value, error, now);
    case (Confirming(initial), GetReply(_)) => ConfirmOutcome(c, s, w, initial, reply, now);
    case (Confirming(initial), Fault(_)) => ConfirmOutcome(c, s, w, initial, reply, now);
    case _ =>
  }

  lemma {:induction false} RepairPlayOut(c: Config, s: Ledger, w: Worker, script: seq<Await>)
    requires RepairStage(w.stage)
    ensures PlayOut(c, s, w, script).1.Some? ==> PlayOut(c, s, w, script).1.value in REPAIR_OUTCOMES
    decreases |script|
  {
    if !w.stage.Finished? && script != [] {
      var s1 := PerformAll(s, script[0].env);
      if WantOf(w.stage).None? || !Accepts(WantOf(w.stage).value, script[0].reply) {
        RepairPlayOut(c, s1, w, script[1..]);
      } else {
        var r := React(c, s1, w, script[0].reply, script[0].now);
        RepairReaction(c, s1, w, script[0].reply, script[0].now);
        RepairPlayOut(c, PerformAll(s1, r.ops), w.(stage := r.stage), script[1..]);
      }
    }
  }

  /** A repair that ends reports one of the five outcomes the drive counts. */
  lemma RepairOutcomes(c: Config, s: Ledger, w: Worker, now: int, script: seq<Await>)
    requires w.stage == RepairStart
    ensures Operate(c, s, w, now, script).1.Some? ==> Operate(c, s, w, now, script).1.value in REPAIR_OUTCOMES
  {
    var r := Begin(c, s, w, now);
    EndRepairOutcome(s, w, UnknownRepair(c, w, Keep, Keep, "invalid_external_identity"), [], now);
    RepairPlayOut(c, PerformAll(s, r.ops), w.(stage := r.stage), script);
  }

  // ---------------------------------------------------------------- an operation nobody interferes with

  /** Only the worker's own row changes, and the log only grows. */
  ghost predicate OwnRowOnly(s: Ledger, s': Ledger, id: string) {
    && (forall k :: k in s.rows && k != id ==> k in s'.rows && s'.rows[k] == s.rows[k])
    && |s.events| <= |s'.events| && s'.events[..|s.events|] == s.events
  }

  /** What a drive logs for each row that is due. */
  ghost function ReconcilePlan(s: Ledger, now: int): map<string, Phase> {
    map id | id in DueForReconcile(s, now) :: ReconcileClaimed
  }

  ghost predicate HasBudget(r: Row, now: int, max: nat) {
    r.repairAttempts < max && r.approval.Some? && now < r.approval.value.expiresAt
  }

  ghost function RepairPlan(s: Ledger, now: int, max: nat): map<string, Phase> {
    map id | id in s.rows && RepairIsDue(s.rows[id], now) ::
      if HasBudget(s.rows[id], now, max) then RepairClaimed else RepairEnded(RepairBlocked)
  }

  /** Part-way through a quiet drive: the ids behind are done as planned, every other row is as it was listed. */
  ghost predicate DrivenUpTo(from: nat, listed: Ledger, ids: seq<string>, plan: map<string, Phase>, i: nat, s: Ledger)
    requires i <= |ids|
  {
    && from <= |s.events|
    && (forall k :: k in listed.rows && k !in ids[..i] ==> k in s.rows && s.rows[k] == listed.rows[k])
    && (forall j :: 0 <= j < i ==> ids[j] in plan && LoggedSince(from, s.events, ids[j], plan[ids[j]]))
  }

  lemma ReconcileStarts(before: Ledger, ttl: nat, now: int) returns (plan: map<string, Phase>)
    ensures TableOk(before) ==>
      var (listed, recovered) := RecoverOrphans(before, ttl, now);
      var ids := ReconcilableIds(listed, listed.order, now);
      && recovered == |Orphans(before, ttl, now)|
      && plan == ReconcilePlan(listed, now) && plan.Keys <= listed.rows.Keys
      && GoesThrough(ids, plan.Keys)
      && (forall id :: id in plan ==> plan[id] == ReconcileClaimed && ReconcileIsDue(listed.rows[id], now))
      && DrivenUpTo(|before.events|, listed, ids, plan, 0, listed)
  {
    plan := ReconcilePlan(RecoverOrphans(before, ttl, now).0, now);
    if TableOk(before) {
      RecoveryFeedsDrive(before, ttl, now);
      assert plan.Keys == DueForReconcile(RecoverOrphans(before, ttl, now).0, now);
    }
  }

  lemma ReconcileEnds(before: Ledger, ttl: nat, now: int, plan: map<string, Phase>, s: Ledger)
    requires TableOk(before)
    requires var listed := RecoverOrphans(before, ttl, now).0;
      var ids := ReconcilableIds(listed, listed.order, now);
      && plan == ReconcilePlan(listed, now)
      && GoesThrough(ids, plan.Keys) && DrivenUpTo(|before.events|, listed, ids, plan, |ids|, s)
    ensures var due := Orphans(before, ttl, now) + DueForReconcile(before, now);
      var listed := RecoverOrphans(before, ttl, now).0;
      && |ReconcilableIds(listed, listed.order, now)| == |due|
      && ReconciledAll(before, due, s)
  {
    RecoveryFeedsDrive(before, ttl, now);
    var listed := RecoverOrphans(before, ttl, now).0;
    DriveEnds(|before.events|, listed, ReconcilableIds(listed, listed.order, now), plan, s);
  }

  /** Each of the given rows has been claimed for reconcile since, and every other row is as it was. */
  ghost predicate ReconciledAll(before: Ledger, due: set<string>, s: Ledger) {
    && (forall id :: id in due ==> LoggedSince(|before.events|, s.events, id, ReconcileClaimed))
    && (forall id :: id in before.rows && id !in due ==> id in s.rows && s.rows[id] == before.rows[id])
  }

  lemma RepairStarts(before: Ledger, now: int, max: nat) returns (plan: map<string, Phase>)
    ensures TableOk(before) ==>
      var ids := RepairableIds(before, before.order, now);
      && plan == RepairPlan(before, now, max)
      && |ids| == |DueForRepair(before, now)|
      && PlansRepairs(before, ids, plan, now, max)
      && RepairKept(before, ids, plan, 0, 0, 0, before)
  {
    plan := RepairPlan(before, now, max);
    if TableOk(before) {
      DrivesListWhatIsDue(before, now);
      assert plan.Keys == DueForRepair(before, now);
    }
  }

  lemma DriveMovesOn(from: nat, listed: Ledger, ids: seq<string>, plan: map<string, Phase>, i: nat, s: Ledger, s': Ledger)
    requires i < |ids| && DrivenUpTo(from, listed, ids, plan, i, s) && ids[i] in plan
    requires OwnRowOnly(s, s', ids[i]) && LoggedSince(|s.events|, s'.events, ids[i], plan[ids[i]])
    ensures DrivenUpTo(from, listed, ids, plan, i + 1, s')
  {
    assert ids[..i + 1] == ids[..i] + [ids[i]];
    forall j | 0 <= j <= i ensures ids[j] in plan && LoggedSince(from, s'.events, ids[j], plan[ids[j]]) {
      if j < i { LogStays(from, s.events, s'.events, ids[j], plan[ids[j]]); }
    }
  }

  /** The row that a quiet drive comes to is as it was listed. */
  lemma StillAsListed(from: nat, listed: Ledger, ids: seq<string>, plan: map<string, Phase>, i: nat, s: Ledger)
    requires GoesThrough(ids, plan.Keys) && plan.Keys <= listed.rows.Keys
    requires i < |ids| && DrivenUpTo(from, listed, ids, plan, i, s)
    ensures ids[i] in plan && ids[i] in s.rows && s.rows[ids[i]] == listed.rows[ids[i]]
  {
    assert ids[i] in ids && ids[i] !in ids[..i];
  }

  /** After a quiet drive every due row has its event, and no other row has changed. */
  ghost predicate Driven(from: nat, listed: Ledger, plan: map<string, Phase>, s: Ledger) {
    && (forall id :: id in plan ==> LoggedSince(from, s.events, id, plan[id]))
    && (forall id :: id in listed.rows && id !in plan ==> id in s.rows && s.rows[id] == listed.rows[id])
  }

  lemma DriveEnds(from: nat, listed: Ledger, ids: seq<string>, plan: map<string, Phase>, s: Ledger)
    requires GoesThrough(ids, plan.Keys) && DrivenUpTo(from, listed, ids, plan, |ids|, s)
    ensures Driven(from, listed, plan, s)
  {
    assert ids[..|ids|] == ids;
    forall id | id in plan ensures LoggedSince(from, s.events, id, plan[id]) {
      assert id in ids;
    }
  }

  /** How many of the ids are to be done in the given way. */
  ghost function Planned(ids: seq<string>, plan: map<string, Phase>, phase: Phase): nat
    requires forall id :: id in ids ==> id in plan
  {
    if ids == [] then 0
    else
      assert ids[|ids| - 1] in plan;
      Planned(ids[..|ids| - 1], plan, phase) + if plan[ids[|ids| - 1]] == phase then 1 else 0
  }

  ghost function InPhase(plan: map<string, Phase>, phase: Phase): set<string> {
    set id | id in plan && plan[id] == phase
  }

  lemma {:induction false} PlannedIsExact(ids: seq<string>, plan: map<string, Phase>, phase: Phase)
    requires (forall id :: id in ids ==> id in plan) && forall i, j :: 0 <= i < j < |ids| ==> ids[i] != ids[j]
    ensures Planned(ids, plan, phase) == |Chosen(ids, InPhase(plan, phase))|
  {
    if ids != [] {
      PlannedIsExact(ids[..|ids| - 1], plan, phase);
      ChosenGrows(ids, InPhase(plan, phase));
    }
  }

  lemma RecordTouchesOwnRow(s: Ledger, op: Op)
    requires op.OpRecordExecution? || op.OpRecordReconcile? || op.OpRecordRepair?
    ensures OwnRowOnly(s, Perform(s, op), op.id)
  {
  }

  /** A reaction makes at most one call, and it is a record on the worker's own action. */
  ghost predicate OwnRecord(r: Reaction, id: string) {
    |r.ops| <= 1 && forall op :: op in r.ops ==>
      (op.OpRecordExecution? || op.OpRecordReconcile? || op.OpRecordRepair?) && op.id == id
  }

  lemma ExecutionsAreOwnRecords(c: Config, s: Ledger, w: Worker, reply: Reply, now: int)
    requires w.stage.Creating? || w.stage.ReadingBack?
    ensures OwnRecord(React(c, s, w, reply, now), w.id)
  {
  }

  lemma ReconcilesAreOwnRecords(c: Config, s: Ledger, w: Worker, reply: Reply, now: int)
    requires w.stage.Searching? || w.stage.Fetching?
    ensures OwnRecord(React(c, s, w, reply, now), w.id)
  {
  }

  lemma RepairsAreOwnRecords(c: Config, s: Ledger, w: Worker, reply: Reply, now: int)
    requires w.stage.Inspecting? || w.stage.Labelling? || w.stage.Confirming?
    ensures OwnRecord(React(c, s, w, reply, now), w.id)
  {
  }

  lemma ReactionsAreOwnRecords(c: Config, s: Ledger, w: Worker, reply: Reply, now: int)
    ensures OwnRecord(React(c, s, w, reply, now), w.id)
  {
    if w.stage.Creating? || w.stage.ReadingBack? {
      ExecutionsAreOwnRecords(c, s, w, reply, now);
    } else if w.stage.Searching? || w.stage.Fetching? {
      ReconcilesAreOwnRecords(c, s, w, reply, now);
    } else if w.stage.Inspecting? || w.stage.Labelling? || w.stage.Confirming? {
      RepairsAreOwnRecords(c, s, w, reply, now);
    }
  }

  lemma BeginningsAreOwnRecords(c: Config, s: Ledger, w: Worker, now: int)
    ensures OwnRecord(Begin(c, s, w, now), w.id)
  {
  }

  lemma ReactionTouchesOwnRow(s: Ledger, r: Reaction, id: string)
    requires OwnRecord(r, id)
    ensures OwnRowOnly(s, PerformAll(s, r.ops), id)
  {
    if r.ops != [] {
      assert r.ops == [r.ops[0]];
      OneCall(s, r.ops[0]);
      RecordTouchesOwnRow(s, r.ops[0]);
    }
  }

  lemma {:induction false} QuietPlayOut(c: Config, s: Ledger, w: Worker, script: seq<Await>)
    requires QuietScript(script)
    ensures OwnRowOnly(s, PlayOut(c, s, w, script).0, w.id)
    decreases |script|
  {
    if !w.stage.Finished? && script != [] {
      assert PerformAll(s, script[0].env) == s;
      if WantOf(w.stage).None? || !Accepts(WantOf(w.stage).value, script[0].reply) {
        QuietPlayOut(c, s, w, script[1..]);
      } else {
        var r := React(c, s, w, script[0].reply, script[0].now);
        ReactionsAreOwnRecords(c, s, w, script[0].reply, script[0].now);
        ReactionTouchesOwnRow(s, r, w.id);
        QuietPlayOut(c, PerformAll(s, r.ops), w.(stage := r.stage), script[1..]);
        OwnRowOnlyTransitive(s, PerformAll(s, r.ops), PlayOut(c, s, w, script).0, w.id);
      }
    }
  }

  lemma OwnRowOnlyTransitive(a: Ledger, b: Ledger, d: Ledger, id: string)
    requires OwnRowOnly(a, b, id) && OwnRowOnly(b, d, id)
    ensures OwnRowOnly(a, d, id)
  {
    assert d.events[..|a.events|] == d.events[..|b.events|][..|a.events|];
  }

  lemma QuietOperation(c: Config, s: Ledger, w: Worker, now: int, script: seq<Await>)
    requires QuietScript(script)
    ensures OwnRowOnly(s, Operate(c, s, w, now, script).0, w.id)
  {
    var r := Begin(c, s, w, now);
    BeginningsAreOwnRecords(c, s, w, now);
    ReactionTouchesOwnRow(s, r, w.id);
    QuietPlayOut(c, PerformAll(s, r.ops), w.(stage := r.stage), script);
    OwnRowOnlyTransitive(s, PerformAll(s, r.ops), Operate(c, s, w, now, script).0, w.id);
  }

  /** What awaiting one candidate gives: the issue, or the end of the operation. */
  datatype Fetched = Got(issue: Option<Issue>) | Ended(outcome: Option<Outcome>)

  class Broker {
    const ledger: ActionLedger
    const c: Config

    constructor (ledger: ActionLedger, c: Config)
      ensures this.ledger == ledger && this.c == c
    {
      this.ledger := ledger;
      this.c := c;
    }

    /** Suspends until an answer of the awaited sort arrives. */
    method Suspend(want: Want, script: seq<Await>, ghost w: Worker)
      returns (answer: Option<Reply>, now: int, rest: seq<Await>)
      requires WantOf(w.stage) == Some(want)
      modifies ledger
      ensures answer.None? ==> PlayOut(c, old(ledger.State()), w, script) == (ledger.State(), None)
      ensures answer.Some? ==> Accepts(want, answer.value)
      ensures answer.Some? ==>
        PlayOut(c, old(ledger.State()), w, script) ==
        Land(c, ledger.State(), w, React(c, ledger.State(), w, answer.value, now), rest)
    {
      rest := script;
      ghost var before := ledger.State();
      while rest != []
        invariant PlayOut(c, before, w, script) == PlayOut(c, ledger.State(), w, rest)
        decreases |rest|
      {
        var head := rest[0];
        ledger.ExecuteAll(head.env);
        rest := rest[1..];
        if Accepts(want, head.reply) {
          return Some(head.reply), head.now, rest;
        }
      }
      return None, 0, rest;
    }

    /** Records the end of an execution, whose answer to the caller ignores staleness. */
    method FinishExecution(ghost w: Worker, id: string, attempt: nat, result: ExecutionResult, now: int,
                           ghost calls: seq<Call>, ghost script: seq<Await>)
      returns (outcome: Option<Outcome>)
      requires w.id == id && w.attempt == attempt
      modifies ledger
      ensures (ledger.State(), outcome)
        == Land(c, old(ledger.State()), w, EndExecution(w, result, calls, now), script)
    {
      OneCall(ledger.State(), OpRecordExecution(id, attempt, result, now));
      var _ := ledger.RecordExecutionResult(id, attempt, result, now);
      return Some(Reported(result.target));
    }

    method ExecuteClaimedAction(id: string, attempt: nat, action: Row, now: int, script: seq<Await>)
      returns (outcome: Option<Outcome>)
      modifies ledger
      ensures var w := Worker(id, attempt, action, Attempts(old(ledger.State()), id), now, ExecuteStart);
        (ledger.State(), outcome) == Operate(c, old(ledger.State()), w, now, script)
    {
      var w := Worker(id, attempt, action, if id in ledger.rows then ledger.rows[id].repairAttempts else 0, now, ExecuteStart);
      if id in ledger.rows {
        var current := ledger.rows[id];
        if current.status != Executing || current.attempt != Some(attempt) {
          return Some(StaleOutcome);
        }
      }
      // await gateway.createIssue
      w := w.(stage := Creating);
      assert PerformAll(ledger.State(), []) == ledger.State();
      var created, t, rest := Suspend(WantWrite, script, w);
      if created.None? { return None; }
      outcome := RecordCreated(w, id, attempt, created.value.value, created.value.error, t, rest);
    }

    /** What follows the answer to a create. */
    method RecordCreated(w: Worker, id: string, attempt: nat, value: Option<Value>, error: string, t: int, rest: seq<Await>)
      returns (outcome: Option<Outcome>)
      requires w.stage == Creating && w.id == id && w.attempt == attempt
      modifies ledger
      ensures (ledger.State(), outcome)
        == Land(c, old(ledger.State()), w, AfterCreate(c, old(ledger.State()), w, value, error, t), rest)
    {
      var transport := ClassifyCreateOutcome(value);
      if transport.PermanentNoEffect? {
        outcome := FinishExecution(w, id, attempt, FailedResult(error, false), t, [], rest);
        return;
      }
      if transport.Throttled? {
        outcome := FinishExecution(w, id, attempt, FailedResult(error, true), t, [], rest);
        return;
      }
      if transport.Ambiguous? {
        outcome := FinishExecution(w, id, attempt, UnknownResult(c, error, ExecutionEnded(Unknown), t), t, [], rest);
        return;
      }
      if !HasValidExternalIdentity(transport.issue) {
        outcome := FinishExecution(w, id, attempt, UnknownResult(c, MALFORMED_CREATE, ExecutionEnded(Unknown), t), t, [], rest);
        return;
      }
      var issue := transport.issue.value;
      OneCall(ledger.State(), OpRecordExecution(id, attempt, DispatchedResult(issue), t));
      var dispatched := ledger.RecordExecutionResult(id, attempt, DispatchedResult(issue), t);
      if dispatched.Err? { return Some(Rejected); }
      if !dispatched.value { return Some(StaleOutcome); }
      outcome := ReadBackCreated(w.(stage := ReadingBack(issue)), rest);
    }

    /** The readback of a created issue. */
    method ReadBackCreated(w: Worker, script: seq<Await>) returns (outcome: Option<Outcome>)
      requires w.stage.ReadingBack?
      modifies ledger
      ensures (ledger.State(), outcome) == PlayOut(c, old(ledger.State()), w, script)
    {
      // await gateway.getIssue
      var got, t, rest := Suspend(WantGet, script, w);
      if got.None? { return None; }
      if got.value.Fault? {
        outcome := FinishExecution(w, w.id, w.attempt, UnknownResult(c, got.value.error, ReadbackUnknown, t), t, [], rest);
        return;
      }
      var readback := got.value.issue;
      ghost var calls := [Read(w.id, readback)];
      if !HasValidExternalIdentity(readback) {
        outcome := FinishExecution(w, w.id, w.attempt, UnknownResult(c, MALFORMED_GET, ReadbackUnknown, t), t, calls, rest);
        return;
      }
      var p := w.action.params;
      var verdict := ValidateReadback(c.lower, readback, Expected(w.id, p.repo, p.title, p.body, p.labels));
      outcome := FinishExecution(w, w.id, w.attempt, VerdictResult(readback, verdict), t, calls, rest);
    }

    method PersistResult(ghost w: Worker, id: string, attempt: nat, result: ReconcileResult, now: int,
                         ghost calls: seq<Call>, ghost script: seq<Await>)
      returns (outcome: Option<Outcome>)
      requires w.id == id && w.attempt == attempt
      modifies ledger
      ensures (ledger.State(), outcome)
        == Land(c, old(ledger.State()), w, Persist(old(ledger.State()), w, result, calls, now), script)
    {
      OneCall(ledger.State(), OpRecordReconcile(id, attempt, result, now));
      var won := ledger.RecordReconcileResult(id, attempt, result, now);
      if won.Err? { return Some(Rejected); }
      if !won.value { return Some(StaleOutcome); }
      if id in ledger.rows && ledger.rows[id].status != result.target {
        return Some(Reported(ledger.rows[id].status));
      }
      return Some(Reported(result.target));
    }

    method ReconcileClaimedAction(id: string, attempt: nat, action: Row, now: int, script: seq<Await>)
      returns (outcome: Option<Outcome>)
      modifies ledger
      ensures var w := Worker(id, attempt, action, Attempts(old(ledger.State()), id), now, ReconcileStart);
        (ledger.State(), outcome) == Operate(c, old(ledger.State()), w, now, script)
    {
      var w := Worker(id, attempt, action, Attempts(ledger.State(), id), now, ReconcileStart);
      if id in ledger.rows {
        var current := ledger.rows[id];
        if current.status != Reconciling || current.attempt != Some(attempt) {
          return Some(StaleOutcome);
        }
      }
      // await gateway.searchIssuesByMarker
      ghost var before := ledger.State();
      w := w.(stage := Searching);
      assert PerformAll(before, []) == before;
      var found, t, rest := Suspend(WantSearch, script, w);
      if found.None? { return None; }
      if found.value.Fault? {
        outcome := PersistResult(w, id, attempt, UnknownReconcile(c, "search_fault", t), t, [], rest);
        return;
      }
      outcome := FetchCandidates(w, found.value.count, rest, t);
    }

    /**
     * Fetches the candidates one by one. Started with none it decides at once, as the stage
     * machine does when the search comes back empty.
     */
    method FetchCandidates(w: Worker, count: nat, script: seq<Await>, now: int) returns (outcome: Option<Outcome>)
      modifies ledger
      ensures (ledger.State(), outcome)
        == Land(c, old(ledger.State()), w, AfterSearch(c, old(ledger.State()), w, SearchReply(count), now), script)
    {
      var t, rest := now, script;
      var validMatches: seq<Issue>, sawAmbiguousCandidate := [], false;
      ghost var fetched: seq<Option<Issue>>, calls: seq<Call> := [], [];
      ghost var goal := Land(c, ledger.State(), w, AfterSearch(c, ledger.State(), w, SearchReply(count), now), script);
      assert PerformAll(ledger.State(), []) == ledger.State();
      var i := 0;
      while i < count
        invariant 0 <= i <= count && |fetched| == i
        invariant validMatches == MatchesIn(c.lower, ExpectedOf(w), fetched)
        invariant sawAmbiguousCandidate <==> |validMatches| < i
        invariant goal == WithFetched(ledger.State(), w, count, fetched, t, calls, rest)
      {
        var got;
        got, t, rest := FetchOne(w, count, rest, fetched);
        if got.Ended? { return got.outcome; }
        if !HasValidExternalIdentity(got.issue) {
          sawAmbiguousCandidate := true;
        } else {
          var verdict := ValidateReadback(c.lower, got.issue, ExpectedOf(w));
          if verdict.FullReadbackValid? || verdict.MissingLabels? {
            validMatches := validMatches + [got.issue.value];
          } else {
            sawAmbiguousCandidate := true;
          }
        }
        assert (fetched + [got.issue])[..i] == fetched;
        fetched, calls := fetched + [got.issue], [Read(w.id, got.issue)];
        i := i + 1;
      }
      outcome := Conclude(w, validMatches, sawAmbiguousCandidate, t, rest, fetched, calls);
    }

    /** Awaits one candidate; a failed read ends the whole reconcile. */
    method FetchOne(w: Worker, count: nat, script: seq<Await>, ghost fetched: seq<Option<Issue>>)
      returns (r: Fetched, t: int, rest: seq<Await>)
      requires |fetched| < count
      modifies ledger
      ensures r.Ended? ==> WithFetched(old(ledger.State()), w, count, fetched, 0, [], script) == (ledger.State(), r.outcome)
      ensures r.Got? ==>
        WithFetched(old(ledger.State()), w, count, fetched, 0, [], script) ==
        WithFetched(ledger.State(), w, count, fetched + [r.issue], t, [Read(w.id, r.issue)], rest)
    {
      // await gateway.getIssue
      ghost var fetching := w.(stage := Fetching(count, fetched));
      var got;
      got, t, rest := Suspend(WantGet, script, fetching);
      if got.None? { return Ended(None), t, rest; }
      if got.value.Fault? {
        var outcome := PersistResult(fetching, w.id, w.attempt, UnknownReconcile(c, "candidate_get_fault", t), t, [], rest);
        return Ended(outcome), t, rest;
      }
      PersistIgnoresStage(ledger.State(), w, fetching, fetched + [got.value.issue], t, [Read(w.id, got.value.issue)], rest);
      assert PerformAll(ledger.State(), []) == ledger.State();
      return Got(got.value.issue), t, rest;
    }

    /** The state and answer still to come when some candidates are in. */
    ghost function WithFetched(s: Ledger, w: Worker, count: nat, fetched: seq<Option<Issue>>, now: int, calls: seq<Call>,
                               script: seq<Await>): (Ledger, Option<Outcome>)
    {
      if |fetched| < count then PlayOut(c, s, w.(stage := Fetching(count, fetched)), script)
      else Concluded(s, w, fetched, now, calls, script)
    }

    /** The state and answer once all candidates are in. */
    ghost function Concluded(s: Ledger, w: Worker, fetched: seq<Option<Issue>>, now: int, calls: seq<Call>, script: seq<Await>)
      : (Ledger, Option<Outcome>)
    {
      Land(c, s, w, Persist(s, w, DecisionResult(c, ExpectedOf(w), Decide(c.lower, ExpectedOf(w), fetched), now), calls, now),
           script)
    }

    lemma PersistIgnoresStage(s: Ledger, w: Worker, w': Worker, fetched: seq<Option<Issue>>, now: int,
                              calls: seq<Call>, script: seq<Await>)
      requires w' == w.(stage := w'.stage)
      ensures Concluded(s, w, fetched, now, calls, script) == Concluded(s, w', fetched, now, calls, script)
    {
    }

    method Conclude(w: Worker, validMatches: seq<Issue>, sawAmbiguousCandidate: bool, now: int, ghost script: seq<Await>,
                    ghost fetched: seq<Option<Issue>>, ghost calls: seq<Call>) returns (outcome: Option<Outcome>)
      requires validMatches == MatchesIn(c.lower, ExpectedOf(w), fetched)
      requires sawAmbiguousCandidate <==> |validMatches| < |fetched|
      modifies ledger
      ensures (ledger.State(), outcome) == Concluded(old(ledger.State()), w, fetched, now, calls, script)
    {
      var expected := ExpectedOf(w);
      var result: ReconcileResult;
      if |validMatches| > 1 {
        result := DecisionResult(c, expected, TooMany(|validMatches|), now);
      } else if sawAmbiguousCandidate {
        result := UnknownReconcile(c, "ambiguous_candidate", now);
      } else if |validMatches| == 1 {
        result := DecisionResult(c, expected, Adopt(validMatches[0]), now);
      } else {
        result := UnknownReconcile(c, "search_empty", now);
      }
      outcome := PersistResult(w, w.id, w.attempt, result, now, calls, script);
    }

    method RecordOutcome(ghost w: Worker, id: string, attempt: nat, result: RepairResult, now: int,
                         ghost calls: seq<Call>, ghost script: seq<Await>)
      returns (outcome: Option<Outcome>)
      requires w.id == id && w.attempt == attempt
      modifies ledger
      ensures (ledger.State(), outcome)
        == Land(c, old(ledger.State()), w, EndRepair(old(ledger.State()), w, result, calls, now), script)
    {
      OneCall(ledger.State(), OpRecordRepair(id, attempt, result, now));
      var won := ledger.RecordRepairResult(id, attempt, result, now);
      if won.Err? { return Some(Rejected); }
      return Some(if won.value then Reported(result.target) else StaleOutcome);
    }

    method RepairClaimedAction(id: string, attempt: nat, action: Row, now: int, script: seq<Await>)
      returns (outcome: Option<Outcome>)
      modifies ledger
      ensures var w := Worker(id, attempt, action, Attempts(old(ledger.State()), id), now, RepairStart);
        (ledger.State(), outcome) == Operate(c, old(ledger.State()), w, now, script)
    {
      if id !in ledger.rows { return Some(StaleOutcome); }
      var current := ledger.rows[id];
      if current.status != Repairing || current.attempt != Some(attempt) { return Some(StaleOutcome); }
      var w := Worker(id, attempt, action, current.repairAttempts, now, RepairStart);
      var locator := LocatorOf(action);
      if locator.None? {
        outcome := RecordOutcome(w, id, attempt, UnknownRepair(c, w, Keep, Keep, "invalid_external_identity"), now, [], script);
        return;
      }
      w := w.(stage := Inspecting);
      assert PerformAll(ledger.State(), []) == ledger.State();
      outcome := InspectForRepair(w, script);
    }

    /** The first readback of a repair. */
    method InspectForRepair(w: Worker, script: seq<Await>) returns (outcome: Option<Outcome>)
      requires w.stage.Inspecting? && LocatorOf(w.action).Some?
      modifies ledger
      ensures (ledger.State(), outcome) == PlayOut(c, old(ledger.State()), w, script)
    {
      // await gateway.getIssue
      var first, t, rest := Suspend(WantGet, script, w);
      if first.None? { return None; }
      if first.value.Fault? {
        outcome := RecordOutcome(w, w.id, w.attempt,
                                 UnknownRepair(c, w, Set(Some(first.value.error)), Keep, "ambiguous_repair"), t, [], rest);
        return;
      }
      var initial := first.value.issue;
      var verdict := ValidateReadback(c.lower, initial, ExpectedOf(w));
      ghost var calls := [Read(w.id, initial)];
      if verdict.ReadbackMismatch? {
        outcome := RecordOutcome(w, w.id, w.attempt, UnknownRepair(c, w, Keep, Set(initial), "readback_mismatch"), t,
                                 calls, rest);
        return;
      }
      if verdict.FullReadbackValid? {
        outcome := RecordOutcome(w, w.id, w.attempt, RepairSucceeded(initial, verdict), t, calls, rest);
        return;
      }
      assert PerformAll(ledger.State(), []) == ledger.State();
      outcome := AddMissingLabels(w.(stage := Labelling(initial)), initial, rest);
    }

    /** The one label write of a repair. */
    method AddMissingLabels(w: Worker, initial: Option<Issue>, script: seq<Await>) returns (outcome: Option<Outcome>)
      requires w.stage == Labelling(initial)
      modifies ledger
      ensures (ledger.State(), outcome) == PlayOut(c, old(ledger.State()), w, script)
    {
      // await gateway.addLabels
      var updated, t, rest := Suspend(WantWrite, script, w);
      if updated.None? { return None; }
      var error := updated.value.error;
      var added := ClassifyCreateOutcome(updated.value.value);
      if added.PermanentNoEffect? {
        outcome := RecordOutcome(w, w.id, w.attempt, RepairDenied(error, initial), t, [], rest);
        return;
      }
      if added.Throttled? {
        outcome := RecordOutcome(w, w.id, w.attempt, RetryOrBlock(c, w, "rate_limited", Set(Some(error)), initial), t, [], rest);
        return;
      }
      if added.Ambiguous? {
        outcome := RecordOutcome(w, w.id, w.attempt,
                                 UnknownRepair(c, w, Set(Some(error)), Set(initial), "ambiguous_repair"), t, [], rest);
        return;
      }
      assert PerformAll(ledger.State(), []) == ledger.State();
      outcome := ConfirmRepair(w.(stage := Confirming(initial)), initial, rest);
    }

    /** The second readback of a repair. */
    method ConfirmRepair(w: Worker, initial: Option<Issue>, script: seq<Await>) returns (outcome: Option<Outcome>)
      requires w.stage == Confirming(initial)
      modifies ledger
      ensures (ledger.State(), outcome) == PlayOut(c, old(ledger.State()), w, script)
    {
      // await gateway.getIssue
      var last, t, rest := Suspend(WantGet, script, w);
      if last.None? { return None; }
      if last.value.Fault? {
        outcome := RecordOutcome(w, w.id, w.attempt,
                                 UnknownRepair(c, w, Set(Some(last.value.error)), Set(initial), "ambiguous_repair"), t, [], rest);
        return;
      }
      var readback := last.value.issue;
      var verdict := ValidateReadback(c.lower, readback, ExpectedOf(w));
      ghost var calls := [Read(w.id, readback)];
      if verdict.FullReadbackValid? {
        outcome := RecordOutcome(w, w.id, w.attempt, RepairSucceeded(readback, verdict), t, calls, rest);
        return;
      }
      if verdict.MissingLabels? {
        outcome := RecordOutcome(w, w.id, w.attempt, RetryOrBlock(c, w, "still_missing_labels", Keep, readback), t, calls, rest);
        return;
      }
      outcome := RecordOutcome(w, w.id, w.attempt, UnknownRepair(c, w, Keep, Set(readback), "readback_mismatch"), t, calls, rest);
    }

    // ---------------------------------------------------------------- the drive loops

    static method CountReconcile(outcomes: map<Outcome, nat>, o: Outcome) returns (r: map<Outcome, nat>)
      requires outcomes.Keys == RECONCILE_OUTCOMES
      ensures r.Keys == RECONCILE_OUTCOMES
      ensures ReconcileTotal(r) == ReconcileTotal(outcomes) + if o in RECONCILE_OUTCOMES then 1 else 0
      ensures forall k :: k in r ==> r[k] == outcomes[k] + if k == o then 1 else 0
    {
      r := outcomes;
      if o in r {
        r := r[o := r[o] + 1];
      }
    }

    static method CountRepair(outcomes: map<Outcome, nat>, o: Outcome) returns (r: map<Outcome, nat>)
      requires outcomes.Keys == REPAIR_OUTCOMES
      ensures r.Keys == REPAIR_OUTCOMES
      ensures RepairTotal(r) == RepairTotal(outcomes) + if o in REPAIR_OUTCOMES then 1 else 0
      ensures forall k :: k in r ==> r[k] == outcomes[k] + if k == o then 1 else 0
    {
      r := outcomes;
      if o in r {
        r := r[o := r[o] + 1];
      }
    }

    /** One turn of the loop: claim, and if the claim is won, run the operation. */
    method ReconcileOne(id: string, now: int, script: seq<Await>) returns (won: bool, outcome: Option<Outcome>)
      modifies ledger
      ensures outcome.Some? ==> outcome.value in RECONCILE_OUTCOMES
      ensures won <==> id in old(ledger.rows) && ReconcileIsDue(old(ledger.rows)[id], now)
      ensures QuietScript(script) ==> OwnRowOnly(old(ledger.State()), ledger.State(), id)
      ensures QuietScript(script) && won ==> LoggedSince(|old(ledger.events)|, ledger.events, id, ReconcileClaimed)
    {
      ghost var before := ledger.State();
      var attempt := ledger.ClaimForReconcile(id, now);
      if attempt.None? { return false, None; }
      ghost var s := ledger.State();
      ghost var w := Worker(id, attempt.value, ledger.rows[id], Attempts(s, id), now, ReconcileStart);
      outcome := ReconcileClaimedAction(id, attempt.value, ledger.rows[id], now, script);
      ReconcileOutcomes(c, s, w, now, script);
      if QuietScript(script) {
        QuietOperation(c, s, w, now, script);
        assert OwnRowOnly(before, s, id);
        OwnRowOnlyTransitive(before, s, ledger.State(), id);
        var k := |before.events|;
        assert ledger.events[k] == s.events[k];
      }
      return true, outcome;
    }

    /**
     * When the drive returns, every claim it won is counted under exactly one outcome; with no
     * competing caller it claims exactly the orphans of its recovery pass and the rows that were
     * due before it, and touches no other row.
     */
    method DriveReconciliation(ttl: nat, now: int, scripts: seq<seq<Await>>) returns (summary: Option<ReconcileSummary>)
      modifies ledger
      ensures summary.Some? ==>
        && summary.value.outcomes.Keys == RECONCILE_OUTCOMES
        && summary.value.claimed == ReconcileTotal(summary.value.outcomes)
      ensures summary.Some? && TableOk(old(ledger.State())) ==> summary.value.recovered == |Orphans(old(ledger.State()), ttl, now)|
      ensures summary.Some? && Quiet(scripts) && TableOk(old(ledger.State())) ==>
        var due := Orphans(old(ledger.State()), ttl, now) + DueForReconcile(old(ledger.State()), now);
        summary.value.claimed == |due| && ReconciledAll(old(ledger.State()), due, ledger.State())
    {
      ghost var before := ledger.State();
      var recovered := ledger.RecoverOrphanedLeases(ttl, now);
      ghost var listed, from := ledger.State(), |before.events|;
      ghost var quiet := Quiet(scripts) && TableOk(before);
      ghost var plan := ReconcileStarts(before, ttl, now);
      var outcomes: map<Outcome, nat> := map[
        Reported(Succeeded) := 0, Reported(PartiallyApplied) := 0, Reported(InConflict) := 0,
        Reported(Unknown) := 0, StaleOutcome := 0];
      var claimed := 0;
      var ids := ReconcilableIds(ledger.State(), ledger.order, now);
      for i := 0 to |ids|
        invariant outcomes.Keys == RECONCILE_OUTCOMES
        invariant claimed == ReconcileTotal(outcomes)
        invariant quiet ==> claimed == i && DrivenUpTo(from, listed, ids, plan, i, ledger.State())
      {
        var script := if claimed < |scripts| then scripts[claimed] else [];
        ghost var at := ledger.State();
        if quiet { StillAsListed(from, listed, ids, plan, i, at); }
        var won, outcome := ReconcileOne(ids[i], now, script);
        if quiet { DriveMovesOn(from, listed, ids, plan, i, at, ledger.State()); }
        if won {
          claimed := claimed + 1;
          if outcome.None? { return None; }
          outcomes := CountReconcile(outcomes, outcome.value);
        }
      }
      if quiet { ReconcileEnds(before, ttl, now, plan, ledger.State()); }
      return Some(ReconcileSummary(recovered, claimed, outcomes));
    }

    /** One turn of the loop: claim, and if the claim is won, run the operation. */
    method RepairOne(id: string, now: int, script: seq<Await>) returns (claim: RepairClaim, outcome: Option<Outcome>)
      modifies ledger
      ensures claim == ClaimRepair(old(ledger.State()), id, now, c.maxRepair).1
      ensures outcome.Some? ==> claim.Claimed? && outcome.value in REPAIR_OUTCOMES
      ensures QuietScript(script) ==> OwnRowOnly(old(ledger.State()), ledger.State(), id)
      ensures QuietScript(script) && claim.Claimed? ==> LoggedSince(|old(ledger.events)|, ledger.events, id, RepairClaimed)
      ensures claim.Blocked? ==> LoggedSince(|old(ledger.events)|, ledger.events, id, RepairEnded(RepairBlocked))
    {
      ghost var before := ledger.State();
      RepairClaimIsExact(before, id, now, c.maxRepair);
      claim := ledger.ClaimForRepair(id, now, c.maxRepair);
      ghost var s, k := ledger.State(), |before.events|;
      if !claim.Claimed? {
        assert claim.Blocked? ==> ledger.events[k].phase == RepairEnded(RepairBlocked);
        return claim, None;
      }
      ghost var w := Worker(id, claim.attempt, ledger.rows[id], Attempts(s, id), now, RepairStart);
      outcome := RepairClaimedAction(id, claim.attempt, ledger.rows[id], now, script);
      RepairOutcomes(c, s, w, now, script);
      if QuietScript(script) {
        QuietOperation(c, s, w, now, script);
        assert OwnRowOnly(before, s, id);
        OwnRowOnlyTransitive(before, s, ledger.State(), id);
        assert ledger.events[k] == s.events[k];
      }
    }

    /**
     * Every id scanned is counted at most once: as blocked, as claimed with its outcome, or not at
     * all; with no competing caller each row that is due is claimed if its budget and its approval
     * last, and blocked otherwise, and no other row is touched.
     */
    method DriveRepair(now: int, scripts: seq<seq<Await>>) returns (summary: Option<RepairSummary>)
      modifies ledger
      ensures summary.Some? ==>
        && summary.value.outcomes.Keys == REPAIR_OUTCOMES
        && summary.value.claimed + summary.value.blocked == RepairTotal(summary.value.outcomes)
        && RepairTotal(summary.value.outcomes) <= summary.value.scanned
        && summary.value.blocked <= summary.value.outcomes[Reported(RepairBlocked)]
      ensures summary.Some? && TableOk(old(ledger.State())) ==> summary.value.scanned == |DueForRepair(old(ledger.State()), now)|
      ensures summary.Some? && Quiet(scripts) && TableOk(old(ledger.State())) ==>
        var plan := RepairPlan(old(ledger.State()), now, c.maxRepair);
        && summary.value.claimed == |InPhase(plan, RepairClaimed)|
        && summary.value.blocked == |InPhase(plan, RepairEnded(RepairBlocked))|
        && Driven(|old(ledger.events)|, old(ledger.State()), plan, ledger.State())
    {
      ghost var before := ledger.State();
      ghost var quiet := Quiet(scripts) && TableOk(before);
      ghost var plan := RepairStarts(before, now, c.maxRepair);
      var ids := RepairableIds(ledger.State(), ledger.order, now);
      var outcomes: map<Outcome, nat> := map[
        Reported(Succeeded) := 0, Reported(RepairBlocked) := 0, Reported(RepairRetryWait) := 0,
        Reported(Unknown) := 0, StaleOutcome := 0];
      var claimed, blocked := 0, 0;
      for i := 0 to |ids|
        invariant outcomes.Keys == REPAIR_OUTCOMES
        invariant claimed + blocked == RepairTotal(outcomes) <= i
        invariant blocked <= outcomes[Reported(RepairBlocked)]
        invariant quiet ==> RepairKept(before, ids, plan, i, claimed, blocked, ledger.State())
      {
        var script := if claimed < |scripts| then scripts[claimed] else [];
        ghost var at := ledger.State();
        var claim, outcome := RepairOne(ids[i], now, script);
        if quiet { RepairMovesOn(before, ids, plan, i, claimed, blocked, at, ledger.State(), claim, now, c.maxRepair); }
        if claim.Blocked? {
          blocked := blocked + 1;
          outcomes := CountRepair(outcomes, Reported(RepairBlocked));
        } else if claim.Claimed? {
          claimed := claimed + 1;
          if outcome.None? { return None; }
          outcomes := CountRepair(outcomes, outcome.value);
        }
      }
      if quiet {
        DriveEnds(|before.events|, before, ids, plan, ledger.State());
        PlanDone(ids, plan, claimed, blocked);
      }
      return Some(RepairSummary(|ids|, claimed, blocked, outcomes));
    }
  }

  /** The counts of a repair drive, part-way. */
  ghost predicate PlanKept(ids: seq<string>, plan: map<string, Phase>, i: nat, claimed: nat, blocked: nat)
    requires i <= |ids|
  {
    && (forall id :: id in ids ==> id in plan)
    && claimed == Planned(ids[..i], plan, RepairClaimed)
    && blocked == Planned(ids[..i], plan, RepairEnded(RepairBlocked))
  }

  lemma PlanMovesOn(ids: seq<string>, plan: map<string, Phase>, i: nat, claimed: nat, blocked: nat)
    requires i < |ids| && PlanKept(ids, plan, i, claimed, blocked)
    ensures plan[ids[i]] == RepairClaimed ==> PlanKept(ids, plan, i + 1, claimed + 1, blocked)
    ensures plan[ids[i]] == RepairEnded(RepairBlocked) ==> PlanKept(ids, plan, i + 1, claimed, blocked + 1)
  {
    assert ids[..i + 1][..i] == ids[..i];
  }

  lemma PlanDone(ids: seq<string>, plan: map<string, Phase>, claimed: nat, blocked: nat)
    requires GoesThrough(ids, plan.Keys) && PlanKept(ids, plan, |ids|, claimed, blocked)
    ensures claimed == |InPhase(plan, RepairClaimed)| && blocked == |InPhase(plan, RepairEnded(RepairBlocked))|
  {
    assert ids[..|ids|] == ids;
    PlannedIsExact(ids, plan, RepairClaimed);
    PlannedIsExact(ids, plan, RepairEnded(RepairBlocked));
    assert Chosen(ids, InPhase(plan, RepairClaimed)) == InPhase(plan, RepairClaimed);
    assert Chosen(ids, InPhase(plan, RepairEnded(RepairBlocked))) == InPhase(plan, RepairEnded(RepairBlocked));
  }

  /** A quiet repair drive, part-way. */
  ghost predicate RepairKept(before: Ledger, ids: seq<string>, plan: map<string, Phase>, i: nat, claimed: nat, blocked: nat,
                             s: Ledger)
    requires i <= |ids|
  {
    PlanKept(ids, plan, i, claimed, blocked) && DrivenUpTo(|before.events|, before, ids, plan, i, s)
  }

  /** What is known of a plan for repairs. */
  ghost predicate PlansRepairs(before: Ledger, ids: seq<string>, plan: map<string, Phase>, now: int, max: nat) {
    && GoesThrough(ids, plan.Keys) && plan.Keys <= before.rows.Keys
    && forall id :: id in plan ==>
         && RepairIsDue(before.rows[id], now)
         && plan[id] == if HasBudget(before.rows[id], now, max) then RepairClaimed else RepairEnded(RepairBlocked)
  }

  lemma RepairMovesOn(before: Ledger, ids: seq<string>, plan: map<string, Phase>, i: nat, claimed: nat, blocked: nat,
                      s: Ledger, s': Ledger, claim: RepairClaim, now: int, max: nat)
    requires PlansRepairs(before, ids, plan, now, max) && i < |ids|
    requires RepairKept(before, ids, plan, i, claimed, blocked, s)
    requires OwnRowOnly(s, s', ids[i]) && claim == ClaimRepair(s, ids[i], now, max).1
    requires claim.Claimed? ==> LoggedSince(|s.events|, s'.events, ids[i], RepairClaimed)
    requires claim.Blocked? ==> LoggedSince(|s.events|, s'.events, ids[i], RepairEnded(RepairBlocked))
    ensures claim.Claimed? || claim.Blocked?
    ensures claim.Claimed? ==> RepairKept(before, ids, plan, i + 1, claimed + 1, blocked, s')
    ensures claim.Blocked? ==> RepairKept(before, ids, plan, i + 1, claimed, blocked + 1, s')
  {
    StillAsListed(|before.events|, before, ids, plan, i, s);
    RepairClaimIsExact(s, ids[i], now, max);
    PlanMovesOn(ids, plan, i, claimed, blocked);
    DriveMovesOn(|before.events|, before, ids, plan, i, s, s');
  }
}
