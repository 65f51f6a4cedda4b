/**
 * The broker's three asynchronous operations, cut at their awaits. A worker is one running
 * operation; a reaction is what it does between two awaits: at most one ledger call, the
 * gateway calls it issues or has answered, and the stage it then waits in.
 */
module BrokerSteps {
  import opened Common
  import opened ActionReadback
  import opened LedgerSpec

  datatype Config = Config(lower: string -> string, maxRepair: nat, repairDelay: nat, reconcileDelay: nat)

  datatype Outcome = Reported(status: Status) | StaleOutcome | Rejected | Crashed

  datatype Stage =
    | ExecuteStart
    | Creating
    | ReadingBack(created: Issue)
    | ReconcileStart
    | Searching
    | Fetching(count: nat, fetched: seq<Option<Issue>>)
    | RepairStart
    | Inspecting
    | Labelling(initial: Option<Issue>)
    | Confirming(initial: Option<Issue>)
    | Finished(outcome: Outcome)

  /**
   * `action` is the row the caller passed in, `attempts` the repair counter read at the
   * start and `now` the time a repair drive was given.
   */
  datatype Worker = Worker(id: string, attempt: nat, action: Row, attempts: nat, now: int, stage: Stage)

  /** What the gateway answers; `error` is the sanitized text of whatever went wrong. */
  datatype Reply =
    | WriteReply(value: Option<Value>, error: string)
    | GetReply(issue: Option<Issue>)
    | SearchReply(count: nat)
    | Fault(error: string)

  /** The gateway traffic that matters: writes issued and issues read. */
  datatype Call =
    | PostIssue(id: string, repo: string, title: string, body: string, labels: seq<string>)
    | WriteLabels(id: string, repo: string, number: int, labels: seq<string>)
    | Read(id: string, issue: Option<Issue>)

  datatype Reaction = Reaction(ops: seq<Op>, calls: seq<Call>, stage: Stage)

  function ExpectedOf(w: Worker): Expected {
    var p := w.action.params;
    Expected(w.id, p.repo, p.title, p.body, p.labels)
  }

  function VerdictStatus(v: Verdict): Status {
    match v
    case ReadbackMismatch => Unknown
    case MissingLabels(_) => PartiallyApplied
    case FullReadbackValid => Succeeded
  }

  function RefOf(issue: Issue): ExternalRef {
    ExternalRef(issue.repo, if issue.number.Whole? then issue.number.n else 0,
                if issue.htmlUrl.Some? then issue.htmlUrl.value else "")
  }

  // ---------------------------------------------------------------- execute

  function FailedResult(error: string, throttled: bool): ExecutionResult {
    ExecutionResult(Failed, Keep, Keep, Keep, Set(Some(error)), Keep, Set(Some(NoEffect(throttled))),
                    Some(ExecutionEnded(Failed)))
  }

  function UnknownResult(c: Config, error: string, phase: Phase, now: int): ExecutionResult {
    ExecutionResult(Unknown, Keep, Keep, Keep, Set(Some(error)), Set(Some(now + c.reconcileDelay)), Keep, Some(phase))
  }

  function DispatchedResult(issue: Issue): ExecutionResult {
    ExecutionResult(Executing, Set(Some(RefOf(issue))), Set(issue.nodeId), Keep, Keep, Keep, Keep,
                    Some(ExecutionDispatched))
  }

  function VerdictResult(issue: Option<Issue>, v: Verdict): ExecutionResult {
    ExecutionResult(VerdictStatus(v), Keep, Keep, Set(issue), Keep, Keep, Set(Some(Readback(v))),
                    Some(ExecutionEnded(VerdictStatus(v))))
  }

  /** The answer to the caller ignores whether the record was still current. */
  function EndExecution(w: Worker, result: ExecutionResult, calls: seq<Call>, now: int): Reaction {
    Reaction([OpRecordExecution(w.id, w.attempt, result, now)], calls, Finished(Reported(result.target)))
  }

  function StartExecute(s: Ledger, w: Worker): Reaction {
    if w.id in s.rows && !Holds(s, w.id, Executing, w.attempt) then Reaction([], [], Finished(StaleOutcome))
    else
      var p := w.action.params;
      Reaction([], [PostIssue(w.id, p.repo, p.title, BuildOutgoingBody(p.body, w.id), p.labels)], Creating)
  }

  const MALFORMED_CREATE := "createIssue returned a malformed external identity"
  const MALFORMED_GET := "getIssue returned a malformed external identity"

  function Dispatch(s: Ledger, w: Worker, issue: Issue, now: int): Reaction {
    var op := OpRecordExecution(w.id, w.attempt, DispatchedResult(issue), now);
    match RecordExecution(s, w.id, w.attempt, DispatchedResult(issue), now).1
    case Ok(won) => Reaction([op], [], if won then ReadingBack(issue) else Finished(StaleOutcome))
    case Err(_) => Reaction([op], [], Finished(Rejected))
  }

  function AfterCreate(c: Config, s: Ledger, w: Worker, value: Option<Value>, error: string, now: int): Reaction {
    match ClassifyCreateOutcome(value)
    case PermanentNoEffect => EndExecution(w, FailedResult(error, false), [], now)
    case Throttled => EndExecution(w, FailedResult(error, true), [], now)
    case Ambiguous => EndExecution(w, UnknownResult(c, error, ExecutionEnded(Unknown), now), [], now)
    case TransportOk(issue) =>
      if !HasValidExternalIdentity(issue) then
        EndExecution(w, UnknownResult(c, MALFORMED_CREATE, ExecutionEnded(Unknown), now), [], now)
      else
        Dispatch(s, w, issue.value, now)
  }

  function AfterReadback(c: Config, w: Worker, reply: Reply, now: int): Reaction
    requires reply.GetReply? || reply.Fault?
  {
    match reply
    case Fault(error) => EndExecution(w, UnknownResult(c, error, ReadbackUnknown, now), [], now)
    case GetReply(issue) =>
      var calls := [Read(w.id, issue)];
      if !HasValidExternalIdentity(issue) then
        EndExecution(w, UnknownResult(c, MALFORMED_GET, ReadbackUnknown, now), calls, now)
      else
        EndExecution(w, VerdictResult(issue, ValidateReadback(c.lower, issue, ExpectedOf(w))), calls, now)
  }

  // ---------------------------------------------------------------- reconcile

  /** A fetched candidate that carries an identity and passes readback at least partly. */
  predicate Matches(lower: string -> string, e: Expected, candidate: Option<Issue>) {
    HasValidExternalIdentity(candidate) && !ValidateReadback(lower, candidate, e).ReadbackMismatch?
  }

  datatype Decision = Adopt(issue: Issue) | TooMany(count: nat) | Undecided(reason: string)

  function MatchesIn(lower: string -> string, e: Expected, fetched: seq<Option<Issue>>): (r: seq<Issue>)
    ensures |r| <= |fetched|
  {
    if fetched == [] then []
    else
      var rest := MatchesIn(lower, e, fetched[..|fetched| - 1]);
      var last := fetched[|fetched| - 1];
      if Matches(lower, e, last) then rest + [last.value] else rest
  }

  function Decide(lower: string -> string, e: Expected, fetched: seq<Option<Issue>>): Decision {
    var matches := MatchesIn(lower, e, fetched);
    if |matches| > 1 then TooMany(|matches|)
    else if |matches| < |fetched| then Undecided("ambiguous_candidate")
    else if |matches| == 1 then Adopt(matches[0])
    else Undecided("search_empty")
  }

  function UnknownReconcile(c: Config, reason: string, now: int): ReconcileResult {
    ReconcileResult(Unknown, Keep, Keep, Keep, Some(now + c.reconcileDelay), Set(Some(Reason(reason))),
                    Some(ReconcileEnded(Unknown)))
  }

  function DecisionResult(c: Config, e: Expected, d: Decision, now: int): ReconcileResult {
    match d
    case TooMany(_) =>
      ReconcileResult(InConflict, Keep, Keep, Keep, None, Set(Some(Reason("ambiguous_candidates"))),
                      Some(ReconcileEnded(InConflict)))
    case Undecided(reason) => UnknownReconcile(c, reason, now)
    case Adopt(issue) =>
      var v := ValidateReadback(c.lower, Some(issue), e);
      ReconcileResult(VerdictStatus(v), Set(Some(RefOf(issue))), Set(issue.nodeId), Set(Some(issue)),
                      if v.ReadbackMismatch? then Some(now + c.reconcileDelay) else None,
                      Set(Some(Readback(v))), Some(ReconcileEnded(VerdictStatus(v))))
  }

  /** Records, then reports the status the row ended up with. */
  function Persist(s: Ledger, w: Worker, result: ReconcileResult, calls: seq<Call>, now: int): Reaction {
    var op := OpRecordReconcile(w.id, w.attempt, result, now);
    var (s', won) := RecordReconcile(s, w.id, w.attempt, result, now);
    match won
    case Ok(true) => Reaction([op], calls, Finished(Reported(if w.id in s'.rows then s'.rows[w.id].status else result.target)))
    case Ok(false) => Reaction([op], calls, Finished(StaleOutcome))
    case Err(_) => Reaction([op], calls, Finished(Rejected))
  }

  function StartReconcile(s: Ledger, w: Worker): Reaction {
    if w.id in s.rows && !Holds(s, w.id, Reconciling, w.attempt) then Reaction([], [], Finished(StaleOutcome))
    else Reaction([], [], Searching)
  }

  function AfterSearch(c: Config, s: Ledger, w: Worker, reply: Reply, now: int): Reaction
    requires reply.SearchReply? || reply.Fault?
  {
    match reply
    case Fault(_) => Persist(s, w, UnknownReconcile(c, "search_fault", now), [], now)
    case SearchReply(count) =>
      if count == 0 then
        Persist(s, w, DecisionResult(c, ExpectedOf(w), Decide(c.lower, ExpectedOf(w), []), now), [], now)
      else
        Reaction([], [], Fetching(count, []))
  }

  function AfterFetch(c: Config, s: Ledger, w: Worker, count: nat, fetched: seq<Option<Issue>>, reply: Reply, now: int)
    : Reaction
    requires reply.GetReply? || reply.Fault?
  {
    match reply
    case Fault(_) => Persist(s, w, UnknownReconcile(c, "candidate_get_fault", now), [], now)
    case GetReply(issue) =>
      var all := fetched + [issue];
      if |all| < count then Reaction([], [Read(w.id, issue)], Fetching(count, all))
      else
        Persist(s, w, DecisionResult(c, ExpectedOf(w), Decide(c.lower, ExpectedOf(w), all), now),
                [Read(w.id, issue)], now)
  }

  // ---------------------------------------------------------------- repair

  /** Where the issue to repair lives, if the row says so. */
  datatype Locator = Locator(repo: string, number: int)

  function LocatorOf(action: Row): Option<Locator> {
    if action.externalId.None? then None
    else
      var x := action.externalId.value;
      if 0 < x.number <= MAX_SAFE_INTEGER
      then Some(Locator(if x.repo.Some? then x.repo.value else action.params.repo, x.number))
      else None
  }

  function UnknownRepair(c: Config, w: Worker, error: Field<string>, receipt: Field<Issue>, reason: string): RepairResult {
    RepairResult(Unknown, receipt, error, Set(Some(Reason(reason))), None, Some(w.now + c.reconcileDelay),
                 Some(RepairEnded(Unknown)))
  }

  function RepairSucceeded(issue: Option<Issue>, v: Verdict): RepairResult {
    RepairResult(Succeeded, Set(issue), Keep, Set(Some(Readback(v))), None, None, Some(RepairEnded(Succeeded)))
  }

  function RepairDenied(error: string, receipt: Option<Issue>): RepairResult {
    RepairResult(RepairBlocked, Set(receipt), Set(Some(error)), Set(Some(Reason("permanent_denial"))), None, None,
                 Some(RepairEnded(RepairBlocked)))
  }

  function RetryOrBlock(c: Config, w: Worker, reason: string, error: Field<string>, receipt: Option<Issue>): RepairResult {
    if w.attempts < c.maxRepair then
      RepairResult(RepairRetryWait, Set(receipt), error, Set(Some(Reason(reason))), Some(w.now + c.repairDelay), None,
                   Some(RepairEnded(RepairRetryWait)))
    else
      RepairResult(RepairBlocked, Set(receipt), error, Set(Some(Reason("max_attempts"))), None, None,
                   Some(RepairEnded(RepairBlocked)))
  }

  function EndRepair(s: Ledger, w: Worker, result: RepairResult, calls: seq<Call>, now: int): Reaction {
    var op := OpRecordRepair(w.id, w.attempt, result, now);
    match RecordRepair(s, w.id, w.attempt, result, now).1
    case Ok(won) => Reaction([op], calls, Finished(if won then Reported(result.target) else StaleOutcome))
    case Err(_) => Reaction([op], calls, Finished(Rejected))
  }

  function StartRepair(c: Config, s: Ledger, w: Worker, now: int): Reaction {
    if !Holds(s, w.id, Repairing, w.attempt) then Reaction([], [], Finished(StaleOutcome))
    else if LocatorOf(w.action).None? then
      EndRepair(s, w, UnknownRepair(c, w, Keep, Keep, "invalid_external_identity"), [], now)
    else Reaction([], [], Inspecting)
  }

  function AfterInspect(c: Config, s: Ledger, w: Worker, reply: Reply, now: int): Reaction
    requires reply.GetReply? || reply.Fault?
    requires LocatorOf(w.action).Some?
  {
    match reply
    case Fault(error) => EndRepair(s, w, UnknownRepair(c, w, Set(Some(error)), Keep, "ambiguous_repair"), [], now)
    case GetReply(issue) =>
      match ValidateReadback(c.lower, issue, ExpectedOf(w))
      case ReadbackMismatch =>
        EndRepair(s, w, UnknownRepair(c, w, Keep, Set(issue), "readback_mismatch"), [Read(w.id, issue)], now)
      case FullReadbackValid =>
        EndRepair(s, w, RepairSucceeded(issue, FullReadbackValid), [Read(w.id, issue)], now)
      case MissingLabels(missing) =>
        var l := LocatorOf(w.action).value;
        Reaction([], [Read(w.id, issue), WriteLabels(w.id, l.repo, l.number, missing)], Labelling(issue))
  }

  function AfterLabels(c: Config, s: Ledger, w: Worker, initial: Option<Issue>, value: Option<Value>, error: string,
                       now: int): Reaction
  {
    match ClassifyCreateOutcome(value)
    case PermanentNoEffect => EndRepair(s, w, RepairDenied(error, initial), [], now)
    case Throttled => EndRepair(s, w, RetryOrBlock(c, w, "rate_limited", Set(Some(error)), initial), [], now)
    case Ambiguous => EndRepair(s, w, UnknownRepair(c, w, Set(Some(error)), Set(initial), "ambiguous_repair"), [], now)
    case TransportOk(_) => Reaction([], [], Confirming(initial))
  }

  function AfterConfirm(c: Config, s: Ledger, w: Worker, initial: Option<Issue>, reply: Reply, now: int): Reaction
    requires reply.GetReply? || reply.Fault?
  {
    match reply
    case Fault(error) =>
      EndRepair(s, w, UnknownRepair(c, w, Set(Some(error)), Set(initial), "ambiguous_repair"), [], now)
    case GetReply(issue) =>
      match ValidateReadback(c.lower, issue, ExpectedOf(w))
      case FullReadbackValid =>
        EndRepair(s, w, RepairSucceeded(issue, FullReadbackValid), [Read(w.id, issue)], now)
      case MissingLabels(_) =>
        EndRepair(s, w, RetryOrBlock(c, w, "still_missing_labels", Keep, issue), [Read(w.id, issue)], now)
      case ReadbackMismatch =>
        EndRepair(s, w, UnknownRepair(c, w, Keep, Set(issue), "readback_mismatch"), [Read(w.id, issue)], now)
  }

  // ---------------------------------------------------------------- one reaction

  /** The first stretch of an operation, up to its first await. */
  function Begin(c: Config, s: Ledger, w: Worker, now: int): Reaction {
    match w.stage
    case ExecuteStart => StartExecute(s, w)
    case ReconcileStart => StartReconcile(s, w)
    case RepairStart => StartRepair(c, s, w, now)
    case _ => Reaction([], [], w.stage)
  }

  /** The stretch after an await; an answer of the wrong sort never arrives and changes nothing. */
  function React(c: Config, s: Ledger, w: Worker, reply: Reply, now: int): Reaction {
    match (w.stage, reply)
    case (Creating, WriteReply(value, error)) => AfterCreate(c, s, w, value, error, now)
    case (ReadingBack(_), GetReply(_)) => AfterReadback(c, w, reply, now)
    case (ReadingBack(_), Fault(_)) => AfterReadback(c, w, reply, now)
    case (Searching, SearchReply(_)) => AfterSearch(c, s, w, reply, now)
    case (Searching, Fault(_)) => AfterSearch(c, s, w, reply, now)
    case (Fetching(count, fetched), GetReply(_)) => AfterFetch(c, s, w, count, fetched, reply, now)
    case (Fetching(count, fetched), Fault(_)) => AfterFetch(c, s, w, count, fetched, reply, now)
    case (Inspecting, GetReply(_)) =>
      if LocatorOf(w.action).Some? then AfterInspect(c, s, w, reply, now) else Reaction([], [], w.stage)
    case (Inspecting, Fault(_)) =>
      if LocatorOf(w.action).Some? then AfterInspect(c, s, w, reply, now) else Reaction([], [], w.stage)
    case (Labelling(initial), WriteReply(value, error)) => AfterLabels(c, s, w, initial, value, error, now)
    case (Confirming(initial), GetReply(_)) => AfterConfirm(c, s, w, initial, reply, now)
    case (Confirming(initial), Fault(_)) => AfterConfirm(c, s, w, initial, reply, now)
    case _ => Reaction([], [], w.stage)
  }
}
