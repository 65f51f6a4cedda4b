/**
 * What each answer of the gateway makes of the action's row, stated on the answer and on the
 * columns of the row: which status it ends in, when it may be claimed again, what is written to
 * the gateway next. Each statement is about a worker that still holds its lease.
 */
module BrokerOutcomes {
  import opened Common
  import opened ActionReadback
  import opened LedgerSpec
  import opened LedgerAnswers
  import opened BrokerSteps
  import Protocol

  /** The issue is in the worker's repository, open, with the exact title, the exact body and marker, and all labels. */
  ghost predicate Applied(c: Config, w: Worker, issue: Option<Issue>) {
    issue.Some? && FullyApplied(c.lower, issue.value, ExpectedOf(w))
  }

  /** All of that but for some label. */
  ghost predicate LacksLabels(c: Config, w: Worker, issue: Option<Issue>) {
    && issue.Some? && FullyApplied(c.lower, issue.value, ExpectedOf(w).(labels := []))
    && !FullyApplied(c.lower, issue.value, ExpectedOf(w))
  }

  /** An identity the ledger can store and find again. */
  ghost predicate Identified(issue: Option<Issue>) {
    issue.Some? && exists n, node, url :: IdentifiedBy(issue.value, n, node, url)
  }

  ghost predicate IdentifiedBy(issue: Issue, n: int, node: string, url: string) {
    issue.number == Whole(n) && 1 <= n <= 9007199254740991 && issue.nodeId == Some(node) && node != ""
    && issue.htmlUrl == Some(url) && url != ""
  }

  lemma IdentityIsExact(issue: Option<Issue>)
    ensures HasValidExternalIdentity(issue) <==> Identified(issue)
  {
    if HasValidExternalIdentity(issue) {
      assert IdentifiedBy(issue.value, issue.value.number.n, issue.value.nodeId.value, issue.value.htmlUrl.value);
    }
  }

  /** The row ended unknown, and from the given time on a reconcile of it can be claimed. */
  ghost predicate UnknownUntil(s: Ledger, id: string, due: int) {
    && id in s.rows && s.rows[id].status == Unknown && s.rows[id].attempt == None && s.rows[id].nextReconcile == Some(due)
    && forall later :: later >= due ==> ClaimReconcile(s, id, later).1.Some?
  }

  /** The row ended in this status, and nobody holds it. */
  ghost predicate Settled(s: Ledger, id: string, status: Status) {
    id in s.rows && s.rows[id].status == status && s.rows[id].attempt == None && s.rows[id].claimedAt == None
  }

  function After(s: Ledger, r: Reaction): Ledger {
    PerformAll(s, r.ops)
  }

  /** The operation is over, the row is in this status, and this is what is reported. */
  ghost predicate Ends(s: Ledger, r: Reaction, id: string, status: Status) {
    Settled(After(s, r), id, status) && r.stage == Finished(Reported(status))
  }

  /** The operation is over, and the row is unknown and comes up for reconcile at the given time. */
  ghost predicate ComesUp(s: Ledger, r: Reaction, id: string, due: int) {
    UnknownUntil(After(s, r), id, due) && r.stage == Finished(Reported(Unknown))
  }

  /** The row says where the issue is. */
  ghost predicate PointsAt(row: Row, issue: Issue) {
    && row.nodeId == issue.nodeId && row.externalId.Some? && row.externalId.value.repo == issue.repo
    && Whole(row.externalId.value.number) == issue.number && Some(row.externalId.value.htmlUrl) == issue.htmlUrl
  }

  /** The operation does nothing, because its lease is lost. */
  ghost predicate Stops(r: Reaction) {
    r == Reaction([], [], Finished(StaleOutcome))
  }

  // ---------------------------------------------------------------- execute

  /** What a create sends: the declared repository, title and labels, and the body with the action's marker. */
  ghost predicate PostsDeclared(w: Worker, r: Reaction) {
    && r.ops == [] && r.stage == Creating && |r.calls| == 1 && r.calls[0].PostIssue?
    && r.calls[0].id == w.id && r.calls[0].repo == w.action.params.repo && r.calls[0].title == w.action.params.title
    && r.calls[0].labels == w.action.params.labels
    && r.calls[0].body == BuildOutgoingBody(w.action.params.body, w.id)
  }

  /** An execution creates the issue exactly when its attempt holds the row or there is none. */
  lemma CreateSends(c: Config, s: Ledger, w: Worker, now: int)
    requires w.stage == ExecuteStart
    ensures w.id !in s.rows || Holds(s, w.id, Executing, w.attempt) <==> PostsDeclared(w, Begin(c, s, w, now))
    ensures w.id in s.rows && !Holds(s, w.id, Executing, w.attempt) ==> Stops(Begin(c, s, w, now))
  {
  }

  /** The answer to a create hands back this issue. */
  ghost predicate Created(value: Option<Value>, issue: Issue) {
    && value.Some? && ((Says(value.value, KindOk) && value.value.wrapped == Some(issue))
                       || (BareIssue(value.value) && value.value.self == issue))
    && Identified(Some(issue))
  }

  lemma CreatedIsExact(value: Option<Value>)
    ensures forall issue :: Created(value, issue) <==>
      ClassifyCreateOutcome(value) == TransportOk(Some(issue)) && HasValidExternalIdentity(Some(issue))
  {
    ClassificationIsExact(value);
    forall issue ensures Created(value, issue) <==>
      ClassifyCreateOutcome(value) == TransportOk(Some(issue)) && HasValidExternalIdentity(Some(issue)) {
      IdentityIsExact(Some(issue));
    }
  }

  /** The record of an execution that a held lease lets through, when it names no identity. */
  lemma EndedExecution(s: Ledger, w: Worker, result: ExecutionResult, calls: seq<Call>, now: int)
    requires Holds(s, w.id, Executing, w.attempt) && result.nodeId == Keep
    requires result.target in {Succeeded, PartiallyApplied, Failed, Unknown}
    ensures var s' := After(s, EndExecution(w, result, calls, now));
      && Settled(s', w.id, result.target)
      && Writes(result.nextReconcile, s.rows[w.id].nextReconcile, s'.rows[w.id].nextReconcile)
      && Writes(result.receipt, s.rows[w.id].receipt, s'.rows[w.id].receipt)
      && (result.externalId == Keep ==> KeepsIdentity(s, s', w.id))
  {
    OneCall(s, OpRecordExecution(w.id, w.attempt, result, now));
    ExecutionRecordIsExact(s, w.id, w.attempt, result, now);
  }

  lemma RuledOutFails(c: Config, s: Ledger, w: Worker, value: Option<Value>, error: string, now: int)
    requires Holds(s, w.id, Executing, w.attempt) && RulesOutEffect(value)
    ensures var r := AfterCreate(c, s, w, value, error, now);
      var s' := After(s, r);
      Ends(s, r, w.id, Failed) && s'.rows[w.id].lastError == Some(error)
      && s'.rows[w.id].verdict == Some(NoEffect(Limited(value.value)))
  {
    ClassificationIsExact(value);
    var throttled := ClassifyCreateOutcome(value).Throttled?;
    OneCall(s, OpRecordExecution(w.id, w.attempt, FailedResult(error, throttled), now));
    ExecutionRecordIsExact(s, w.id, w.attempt, FailedResult(error, throttled), now);
  }

  lemma CreatedIsStored(c: Config, s: Ledger, w: Worker, value: Option<Value>, error: string, now: int, issue: Issue)
    requires Holds(s, w.id, Executing, w.attempt) && Created(value, issue)
    ensures var r := AfterCreate(c, s, w, value, error, now);
      var s' := After(s, r);
      if Belongs(s, w.id, Set(issue.nodeId)) then s' == s && r.stage == Finished(Rejected)
      else
        r.stage == ReadingBack(issue) && Holds(s', w.id, Executing, w.attempt) && PointsAt(s'.rows[w.id], issue)
  {
    IdentityIsExact(Some(issue));
    CreatedIsExact(value);
    OneCall(s, OpRecordExecution(w.id, w.attempt, DispatchedResult(issue), now));
    ExecutionRecordIsExact(s, w.id, w.attempt, DispatchedResult(issue), now);
  }

  lemma DoubtComesUp(c: Config, s: Ledger, w: Worker, value: Option<Value>, error: string, now: int)
    requires Holds(s, w.id, Executing, w.attempt) && !RulesOutEffect(value) && forall issue :: !Created(value, issue)
    ensures ComesUp(s, AfterCreate(c, s, w, value, error, now), w.id, now + c.reconcileDelay)
  {
    ClassificationIsExact(value);
    CreatedIsExact(value);
    var t := ClassifyCreateOutcome(value);
    if t.TransportOk? && t.issue.Some? {
      assert !Created(value, t.issue.value);
    }
    var text := if t.Ambiguous? then error else MALFORMED_CREATE;
    EndedExecution(s, w, UnknownResult(c, text, ExecutionEnded(Unknown), now), [], now);
  }

  /**
   * The answer to a create decides the row: it fails exactly when the answer rules out an effect;
   * it goes on, pointing at the issue, exactly when one was handed back with a whole identity that
   * no other action has; a taken identity writes nothing; and after every other answer the row is
   * unknown and comes up for reconcile.
   */
  lemma CreateAnswerDecides(c: Config, s: Ledger, w: Worker, value: Option<Value>, error: string, now: int)
    requires w.stage == Creating && Holds(s, w.id, Executing, w.attempt)
    ensures var r := React(c, s, w, WriteReply(value, error), now);
      var s' := After(s, r);
      && r.calls == []
      && (RulesOutEffect(value) <==> Ends(s, r, w.id, Failed))
      && (RulesOutEffect(value) ==>
            s'.rows[w.id].lastError == Some(error) && s'.rows[w.id].verdict == Some(NoEffect(Limited(value.value))))
      && (forall issue :: Created(value, issue) && !Belongs(s, w.id, Set(issue.nodeId)) ==>
            r.stage == ReadingBack(issue) && Holds(s', w.id, Executing, w.attempt) && PointsAt(s'.rows[w.id], issue))
      && (forall issue :: Created(value, issue) && Belongs(s, w.id, Set(issue.nodeId)) ==>
            s' == s && r.stage == Finished(Rejected))
      && (!RulesOutEffect(value) && (forall issue :: !Created(value, issue)) ==> ComesUp(s, r, w.id, now + c.reconcileDelay))
  {
    if RulesOutEffect(value) {
      RuledOutFails(c, s, w, value, error, now);
      forall issue ensures !Created(value, issue) {
        ClassificationIsExact(value);
        CreatedIsExact(value);
      }
    } else if issue :| Created(value, issue) {
      CreatedIsStored(c, s, w, value, error, now, issue);
      CreatedIsExact(value);
    } else {
      DoubtComesUp(c, s, w, value, error, now);
    }
  }

  /** A readback that fails leaves the row unknown until the delay is over. */
  lemma ReadbackFails(c: Config, s: Ledger, w: Worker, error: string, now: int)
    requires w.stage.ReadingBack? && Holds(s, w.id, Executing, w.attempt)
    ensures ComesUp(s, React(c, s, w, Fault(error), now), w.id, now + c.reconcileDelay)
  {
    EndedExecution(s, w, UnknownResult(c, error, ReadbackUnknown, now), [], now);
  }

  /**
   * The readback of a created issue decides the row: it succeeds exactly for an issue that is fully
   * applied, is partly applied exactly when only labels are missing, and is unknown otherwise; an
   * issue without an identity comes up for reconcile after the delay.
   */
  lemma ReadbackAnswerDecides(c: Config, s: Ledger, w: Worker, issue: Option<Issue>, now: int)
    requires w.stage.ReadingBack? && Holds(s, w.id, Executing, w.attempt)
    ensures var r := React(c, s, w, GetReply(issue), now);
      var s' := After(s, r);
      && r.calls == [Read(w.id, issue)] && KeepsIdentity(s, s', w.id)
      && (!Identified(issue) ==> ComesUp(s, r, w.id, now + c.reconcileDelay))
      && (Identified(issue) && Applied(c, w, issue) ==> Ends(s, r, w.id, Succeeded) && s'.rows[w.id].receipt == issue)
      && (Identified(issue) && LacksLabels(c, w, issue) ==>
            Ends(s, r, w.id, PartiallyApplied) && s'.rows[w.id].receipt == issue)
      && (Identified(issue) && !Applied(c, w, issue) && !LacksLabels(c, w, issue) ==>
            Ends(s, r, w.id, Unknown) && s'.rows[w.id].nextReconcile == s.rows[w.id].nextReconcile)
  {
    IdentityIsExact(issue);
    ReadbackIsExact(c.lower, issue, ExpectedOf(w));
    if !Identified(issue) {
      EndedExecution(s, w, UnknownResult(c, MALFORMED_GET, ReadbackUnknown, now), [Read(w.id, issue)], now);
    } else {
      EndedExecution(s, w, VerdictResult(issue, ValidateReadback(c.lower, issue, ExpectedOf(w))), [Read(w.id, issue)], now);
    }
  }

  // ---------------------------------------------------------------- reconcile

  /** A fetched candidate is the action's issue: identified, and as declared up to missing labels. */
  ghost predicate IsTheIssue(c: Config, w: Worker, candidate: Option<Issue>) {
    Identified(candidate) && FullyApplied(c.lower, candidate.value, ExpectedOf(w).(labels := []))
  }

  lemma MatchIsTheIssue(c: Config, w: Worker, candidate: Option<Issue>)
    ensures Matches(c.lower, ExpectedOf(w), candidate) <==> IsTheIssue(c, w, candidate)
  {
    IdentityIsExact(candidate);
    ReadbackIsExact(c.lower, candidate, ExpectedOf(w));
  }

  ghost predicate OneOnly(c: Config, w: Worker, fetched: seq<Option<Issue>>) {
    |fetched| == 1 && IsTheIssue(c, w, fetched[0])
  }

  ghost predicate Several(c: Config, w: Worker, fetched: seq<Option<Issue>>) {
    exists j, k :: 0 <= j < k < |fetched| && IsTheIssue(c, w, fetched[j]) && IsTheIssue(c, w, fetched[k])
  }

  /** The record a reconcile ends with, when the lease is held. */
  lemma EndedReconcile(s: Ledger, w: Worker, result: ReconcileResult, calls: seq<Call>, now: int)
    requires Holds(s, w.id, Reconciling, w.attempt) && Reconcilable(result)
    ensures var r := Persist(s, w, result, calls, now);
      var s' := After(s, r);
      && s' == RecordReconcile(s, w.id, w.attempt, result, now).0
      && Settled(s', w.id, if Belongs(s, w.id, result.nodeId) then InConflict else result.target)
      && r.stage == Finished(Reported(s'.rows[w.id].status))
  {
    OneCall(s, OpRecordReconcile(w.id, w.attempt, result, now));
    ReconcileRecordIsExact(s, w.id, w.attempt, result, now);
    ReconcileRecordWrites(s, w.id, w.attempt, result, now);
  }

  lemma UnknownReconcileComesUp(c: Config, s: Ledger, w: Worker, reason: string, calls: seq<Call>, now: int)
    requires Holds(s, w.id, Reconciling, w.attempt)
    ensures ComesUp(s, Persist(s, w, UnknownReconcile(c, reason, now), calls, now), w.id, now + c.reconcileDelay)
  {
    EndedReconcile(s, w, UnknownReconcile(c, reason, now), calls, now);
    ReconcileRecordWrites(s, w.id, w.attempt, UnknownReconcile(c, reason, now), now);
  }

  /** What a reconcile does once all candidates are in. */
  function Concluded(c: Config, s: Ledger, w: Worker, fetched: seq<Option<Issue>>, calls: seq<Call>, now: int): Reaction {
    Persist(s, w, DecisionResult(c, ExpectedOf(w), Decide(c.lower, ExpectedOf(w), fetched), now), calls, now)
  }

  lemma DecidedByTheIssues(c: Config, w: Worker, fetched: seq<Option<Issue>>)
    ensures var d := Decide(c.lower, ExpectedOf(w), fetched);
      && (d.Adopt? <==> OneOnly(c, w, fetched)) && (d.Adopt? ==> Some(d.issue) == fetched[0])
      && (d.TooMany? <==> Several(c, w, fetched))
  {
    Protocol.DecisionIsExact(c.lower, ExpectedOf(w), fetched);
    forall k | 0 <= k < |fetched| ensures Matches(c.lower, ExpectedOf(w), fetched[k]) <==> IsTheIssue(c, w, fetched[k]) {
      MatchIsTheIssue(c, w, fetched[k]);
    }
    if Several(c, w, fetched) {
      var j, k :| 0 <= j < k < |fetched| && IsTheIssue(c, w, fetched[j]) && IsTheIssue(c, w, fetched[k]);
      assert Matches(c.lower, ExpectedOf(w), fetched[j]) && Matches(c.lower, ExpectedOf(w), fetched[k]);
    }
  }

  ghost predicate KeepsIdentity(s: Ledger, s': Ledger, id: string) {
    && id in s.rows && id in s'.rows
    && s'.rows[id].nodeId == s.rows[id].nodeId && s'.rows[id].externalId == s.rows[id].externalId
  }

  /**
   * Whatever candidates were fetched, the row ends as they deserve: in conflict when two of them are
   * the action's issue; as the one candidate deserves when it is the action's issue and no other
   * action has it; in conflict when another action has it; and else unknown until the delay is over.
   */
  lemma CandidatesDecide(c: Config, s: Ledger, w: Worker, fetched: seq<Option<Issue>>, calls: seq<Call>, now: int)
    requires Holds(s, w.id, Reconciling, w.attempt)
    ensures var r := Concluded(c, s, w, fetched, calls, now);
      && (Several(c, w, fetched) ==> Ends(s, r, w.id, InConflict) && KeepsIdentity(s, After(s, r), w.id))
      && (OneOnly(c, w, fetched) ==>
            if Belongs(s, w.id, Set(fetched[0].value.nodeId)) then
              Ends(s, r, w.id, InConflict) && KeepsIdentity(s, After(s, r), w.id)
            else
              && Ends(s, r, w.id, if Applied(c, w, fetched[0]) then Succeeded else PartiallyApplied)
              && PointsAt(After(s, r).rows[w.id], fetched[0].value) && After(s, r).rows[w.id].receipt == fetched[0])
      && (!Several(c, w, fetched) && !OneOnly(c, w, fetched) ==> ComesUp(s, r, w.id, now + c.reconcileDelay))
  {
    DecidedByTheIssues(c, w, fetched);
    var d := Decide(c.lower, ExpectedOf(w), fetched);
    var result := DecisionResult(c, ExpectedOf(w), d, now);
    if d.Adopt? {
      ReadbackIsExact(c.lower, fetched[0], ExpectedOf(w));
      IdentityIsExact(fetched[0]);
    }
    if d.Undecided? {
      UnknownReconcileComesUp(c, s, w, d.reason, calls, now);
    } else {
      EndedReconcile(s, w, result, calls, now);
      ReconcileRecordIsExact(s, w.id, w.attempt, result, now);
      ReconcileRecordWrites(s, w.id, w.attempt, result, now);
    }
  }

  /** A reconcile fetches every candidate the search found, and concludes with all of them, in order. */
  lemma EveryCandidateIsFetched(c: Config, s: Ledger, w: Worker, count: nat, fetched: seq<Option<Issue>>,
                                issue: Option<Issue>, now: int)
    requires w.stage == Fetching(count, fetched) && |fetched| < count
    ensures var r := React(c, s, w, GetReply(issue), now);
      if |fetched| + 1 < count then r == Reaction([], [Read(w.id, issue)], Fetching(count, fetched + [issue]))
      else r == Concluded(c, s, w, fetched + [issue], [Read(w.id, issue)], now)
  {
  }

  /** A reconcile searches exactly when its attempt holds the row or there is none. */
  lemma ReconcileSearches(c: Config, s: Ledger, w: Worker, now: int)
    requires w.stage == ReconcileStart
    ensures w.id !in s.rows || Holds(s, w.id, Reconciling, w.attempt) ==> Begin(c, s, w, now) == Reaction([], [], Searching)
    ensures w.id in s.rows && !Holds(s, w.id, Reconciling, w.attempt) ==> Stops(Begin(c, s, w, now))
  {
  }

  /** The search decides alone only when it finds nothing. */
  lemma SearchAnswerDecides(c: Config, s: Ledger, w: Worker, count: nat, now: int)
    requires w.stage == Searching && Holds(s, w.id, Reconciling, w.attempt)
    ensures count > 0 ==> React(c, s, w, SearchReply(count), now) == Reaction([], [], Fetching(count, []))
    ensures ComesUp(s, React(c, s, w, SearchReply(0), now), w.id, now + c.reconcileDelay)
  {
    CandidatesDecide(c, s, w, [], [], now);
  }

  /** A search or a fetch that fails ends the whole reconcile and leaves the row unknown. */
  lemma SearchFails(c: Config, s: Ledger, w: Worker, error: string, now: int)
    requires (w.stage == Searching || w.stage.Fetching?) && Holds(s, w.id, Reconciling, w.attempt)
    ensures ComesUp(s, React(c, s, w, Fault(error), now), w.id, now + c.reconcileDelay)
  {
    UnknownReconcileComesUp(c, s, w, "search_fault", [], now);
    UnknownReconcileComesUp(c, s, w, "candidate_get_fault", [], now);
  }

  // ---------------------------------------------------------------- repair

  /** The record a repair ends with, when the lease is held. */
  lemma EndedRepair(s: Ledger, w: Worker, result: RepairResult, calls: seq<Call>, now: int)
    requires Holds(s, w.id, Repairing, w.attempt) && Repaired(result)
    ensures var r := EndRepair(s, w, result, calls, now);
      var s' := After(s, r);
      && s' == RecordRepair(s, w.id, w.attempt, result, now).0 && r.calls == calls
      && Settled(s', w.id, result.target) && r.stage == Finished(Reported(result.target))
      && s'.rows[w.id].nextRepair == (if result.target == RepairRetryWait then result.nextRepair else None)
      && s'.rows[w.id].nextReconcile == (if result.target == Unknown then result.nextReconcile else None)
  {
    OneCall(s, OpRecordRepair(w.id, w.attempt, result, now));
    RepairRecordIsExact(s, w.id, w.attempt, result, now);
  }

  lemma UnknownRepairComesUp(c: Config, s: Ledger, w: Worker, error: Field<string>, receipt: Field<Issue>, reason: string,
                             calls: seq<Call>, now: int)
    requires Holds(s, w.id, Repairing, w.attempt)
    ensures ComesUp(s, EndRepair(s, w, UnknownRepair(c, w, error, receipt, reason), calls, now), w.id,
                    w.now + c.reconcileDelay)
  {
    EndedRepair(s, w, UnknownRepair(c, w, error, receipt, reason), calls, now);
  }

  /** The repair waits for its next turn, or is given up when its claims are used up. */
  ghost predicate WaitsOrGivesUp(c: Config, s: Ledger, r: Reaction, w: Worker) {
    if w.attempts < c.maxRepair
    then
      && Ends(s, r, w.id, RepairRetryWait)
      && forall later :: RepairIsDue(After(s, r).rows[w.id], later) <==> later >= w.now + c.repairDelay
    else Ends(s, r, w.id, RepairBlocked)
  }

  lemma RetryComesUp(c: Config, s: Ledger, w: Worker, reason: string, error: Field<string>, receipt: Option<Issue>,
                     calls: seq<Call>, now: int)
    requires Holds(s, w.id, Repairing, w.attempt)
    ensures WaitsOrGivesUp(c, s, EndRepair(s, w, RetryOrBlock(c, w, reason, error, receipt), calls, now), w)
  {
    EndedRepair(s, w, RetryOrBlock(c, w, reason, error, receipt), calls, now);
  }

  /** Where the issue of a row stands: the stored repository, or the declared one, and the stored number. */
  ghost predicate StandsAt(action: Row, repo: string, number: int) {
    && action.externalId.Some? && number == action.externalId.value.number && 1 <= number <= 9007199254740991
    && repo == if action.externalId.value.repo.Some? then action.externalId.value.repo.value else action.params.repo
  }

  lemma LocatorIsExact(action: Row)
    ensures LocatorOf(action).Some? <==> exists repo, number :: StandsAt(action, repo, number)
    ensures LocatorOf(action).Some? ==> StandsAt(action, LocatorOf(action).value.repo, LocatorOf(action).value.number)
  {
    if LocatorOf(action).Some? {
      assert StandsAt(action, LocatorOf(action).value.repo, LocatorOf(action).value.number);
    }
  }

  /** A repair that holds the row reads the issue, or ends unknown when the row does not say where it stands. */
  lemma RepairStarts(c: Config, s: Ledger, w: Worker, now: int)
    requires w.stage == RepairStart
    ensures var r := Begin(c, s, w, now);
      var located := exists repo, number :: StandsAt(w.action, repo, number);
      && (!Holds(s, w.id, Repairing, w.attempt) ==> Stops(r))
      && (Holds(s, w.id, Repairing, w.attempt) && located ==> r == Reaction([], [], Inspecting))
      && (Holds(s, w.id, Repairing, w.attempt) && !located ==> ComesUp(s, r, w.id, w.now + c.reconcileDelay) && r.calls == [])
  {
    LocatorIsExact(w.action);
    if Holds(s, w.id, Repairing, w.attempt) {
      UnknownRepairComesUp(c, s, w, Keep, Keep, "invalid_external_identity", [], now);
    }
  }

  /** A repair whose read fails, before or after the write, leaves the row unknown and writes nothing. */
  lemma RepairReadFails(c: Config, s: Ledger, w: Worker, error: string, now: int)
    requires w.stage.Confirming? || (w.stage == Inspecting && exists repo, number :: StandsAt(w.action, repo, number))
    requires Holds(s, w.id, Repairing, w.attempt)
    ensures var r := React(c, s, w, Fault(error), now);
      ComesUp(s, r, w.id, w.now + c.reconcileDelay) && r.calls == []
  {
    LocatorIsExact(w.action);
    var receipt := if w.stage.Confirming? then Set(w.stage.initial) else Keep;
    EndedRepair(s, w, UnknownRepair(c, w, Set(Some(error)), receipt, "ambiguous_repair"), [], now);
  }

  /**
   * The first readback of a repair: a fully applied issue ends it in success; an issue that lacks
   * labels gets exactly those of the declared labels it lacks, where the row says it stands; any
   * other issue leaves the row unknown. Nothing else is ever written.
   */
  lemma InspectionDecides(c: Config, s: Ledger, w: Worker, issue: Option<Issue>, now: int)
    requires w.stage == Inspecting && Holds(s, w.id, Repairing, w.attempt)
    requires exists repo, number :: StandsAt(w.action, repo, number)
    ensures var r := React(c, s, w, GetReply(issue), now);
      && (Applied(c, w, issue) ==> Ends(s, r, w.id, Succeeded) && r.calls == [Read(w.id, issue)])
      && (LacksLabels(c, w, issue) ==>
            && r.ops == [] && r.stage == Labelling(issue) && |r.calls| == 2 && r.calls[0] == Read(w.id, issue)
            && WritesMissingLabels(c, w, issue.value, r.calls[1]))
      && (!Applied(c, w, issue) && !LacksLabels(c, w, issue) ==>
            ComesUp(s, r, w.id, w.now + c.reconcileDelay) && r.calls == [Read(w.id, issue)])
  {
    LocatorIsExact(w.action);
    ReadbackIsExact(c.lower, issue, ExpectedOf(w));
    var v := ValidateReadback(c.lower, issue, ExpectedOf(w));
    if v.FullReadbackValid? {
      EndedRepair(s, w, RepairSucceeded(issue, v), [Read(w.id, issue)], now);
    } else if v.ReadbackMismatch? {
      UnknownRepairComesUp(c, s, w, Keep, Set(issue), "readback_mismatch", [Read(w.id, issue)], now);
    }
  }

  /** A write of exactly the declared labels an issue lacks, where the action says it stands. */
  ghost predicate WritesMissingLabels(c: Config, w: Worker, issue: Issue, call: Call) {
    && call.WriteLabels? && call.id == w.id && StandsAt(w.action, call.repo, call.number)
    && forall l :: l in call.labels <==> l in w.action.params.labels && !Carries(c.lower, issue, l)
  }

  /** The gateway says the labels were written. */
  predicate Written(value: Option<Value>) {
    value.Some? && (Says(value.value, KindOk) || BareIssue(value.value))
  }

  /**
   * The answer to a label write: denied, it blocks the repair; refused for now, it waits or gives
   * up; written, the issue is read again; and after any other answer the row is unknown.
   */
  lemma LabelAnswerDecides(c: Config, s: Ledger, w: Worker, initial: Option<Issue>, value: Option<Value>, error: string, now: int)
    requires w.stage == Labelling(initial) && Holds(s, w.id, Repairing, w.attempt)
    ensures var r := React(c, s, w, WriteReply(value, error), now);
      && r.calls == []
      && (value.Some? && Denied(value.value) ==> Ends(s, r, w.id, RepairBlocked))
      && (value.Some? && Limited(value.value) ==> WaitsOrGivesUp(c, s, r, w))
      && (Written(value) ==> r == Reaction([], [], Confirming(initial)))
      && (!RulesOutEffect(value) && !Written(value) ==> ComesUp(s, r, w.id, w.now + c.reconcileDelay))
  {
    ClassificationIsExact(value);
    match ClassifyCreateOutcome(value)
    case PermanentNoEffect => EndedRepair(s, w, RepairDenied(error, initial), [], now);
    case Throttled => RetryComesUp(c, s, w, "rate_limited", Set(Some(error)), initial, [], now);
    case Ambiguous => UnknownRepairComesUp(c, s, w, Set(Some(error)), Set(initial), "ambiguous_repair", [], now);
    case TransportOk(_) =>
  }

  /** The second readback of a repair: success, another turn while labels are missing, or unknown. */
  lemma ConfirmationDecides(c: Config, s: Ledger, w: Worker, issue: Option<Issue>, now: int)
    requires w.stage.Confirming? && Holds(s, w.id, Repairing, w.attempt)
    ensures var r := React(c, s, w, GetReply(issue), now);
      && r.calls == [Read(w.id, issue)]
      && (Applied(c, w, issue) ==> Ends(s, r, w.id, Succeeded))
      && (LacksLabels(c, w, issue) ==> WaitsOrGivesUp(c, s, r, w))
      && (!Applied(c, w, issue) && !LacksLabels(c, w, issue) ==> ComesUp(s, r, w.id, w.now + c.reconcileDelay))
  {
    ReadbackIsExact(c.lower, issue, ExpectedOf(w));
    var calls := [Read(w.id, issue)];
    match ValidateReadback(c.lower, issue, ExpectedOf(w))
    case FullReadbackValid => EndedRepair(s, w, RepairSucceeded(issue, FullReadbackValid), calls, now);
    case MissingLabels(_) => RetryComesUp(c, s, w, "still_missing_labels", Keep, issue, calls, now);
    case ReadbackMismatch => UnknownRepairComesUp(c, s, w, Keep, Set(issue), "readback_mismatch", calls, now);
  }
  // ---------------------------------------------------------------- a lost lease

  /** The operation is over, reports that it came too late, and has changed no row. */
  ghost predicate TooLate(s: Ledger, r: Reaction) {
    r.stage == Finished(StaleOutcome) && After(s, r).rows == s.rows
  }

  lemma LateReconcile(s: Ledger, w: Worker, result: ReconcileResult, calls: seq<Call>, now: int)
    requires w.id in s.rows && !Holds(s, w.id, Reconciling, w.attempt) && Reconcilable(result)
    ensures TooLate(s, Persist(s, w, result, calls, now))
  {
    OneCall(s, OpRecordReconcile(w.id, w.attempt, result, now));
    ReconcileRecordIsExact(s, w.id, w.attempt, result, now);
  }

  lemma LateRepair(s: Ledger, w: Worker, result: RepairResult, calls: seq<Call>, now: int)
    requires w.id in s.rows && !Holds(s, w.id, Repairing, w.attempt) && Repaired(result)
    ensures TooLate(s, EndRepair(s, w, result, calls, now))
  {
    OneCall(s, OpRecordRepair(w.id, w.attempt, result, now));
    RepairRecordIsExact(s, w.id, w.attempt, result, now);
  }

  lemma LateConclusion(c: Config, s: Ledger, w: Worker, fetched: seq<Option<Issue>>, calls: seq<Call>, now: int)
    requires w.id in s.rows && !Holds(s, w.id, Reconciling, w.attempt)
    ensures TooLate(s, Concluded(c, s, w, fetched, calls, now))
  {
    LateReconcile(s, w, DecisionResult(c, ExpectedOf(w), Decide(c.lower, ExpectedOf(w), fetched), now), calls, now);
  }

  /** A reconcile that has lost its lease ends, if it ends, with that answer and without a change. */
  lemma LostReconcileIsStale(c: Config, s: Ledger, w: Worker, reply: Reply, now: int)
    requires w.stage == Searching || w.stage.Fetching?
    requires w.id in s.rows && !Holds(s, w.id, Reconciling, w.attempt)
    ensures var r := React(c, s, w, reply, now); r.stage.Finished? ==> TooLate(s, r)
  {
    if reply.Fault? {
      LateReconcile(s, w, UnknownReconcile(c, "search_fault", now), [], now);
      LateReconcile(s, w, UnknownReconcile(c, "candidate_get_fault", now), [], now);
    } else if w.stage == Searching {
      LateConclusion(c, s, w, [], [], now);
    } else if reply.GetReply? {
      LateConclusion(c, s, w, w.stage.fetched + [reply.issue], [Read(w.id, reply.issue)], now);
    }
  }

  /** So does a repair. */
  lemma LostRepairIsStale(c: Config, s: Ledger, w: Worker, reply: Reply, now: int)
    requires w.stage == Inspecting || w.stage.Labelling? || w.stage.Confirming?
    requires w.id in s.rows && !Holds(s, w.id, Repairing, w.attempt)
    ensures var r := React(c, s, w, reply, now); r.stage.Finished? ==> TooLate(s, r)
  {
    forall result: RepairResult, calls | Repaired(result) ensures TooLate(s, EndRepair(s, w, result, calls, now)) {
      LateRepair(s, w, result, calls, now);
    }
  }

  lemma LateExecution(s: Ledger, w: Worker, result: ExecutionResult, now: int)
    requires w.id in s.rows && !Holds(s, w.id, Executing, w.attempt)
    requires result.target in {Executing, Succeeded, PartiallyApplied, Failed, Unknown}
    ensures PerformAll(s, [OpRecordExecution(w.id, w.attempt, result, now)]).rows == s.rows
    ensures RecordExecution(s, w.id, w.attempt, result, now).1 == Ok(false)
  {
    OneCall(s, OpRecordExecution(w.id, w.attempt, result, now));
    ExecutionRecordIsExact(s, w.id, w.attempt, result, now);
  }

  /** An execution that has lost its lease changes no row, and does not go on to read the issue back. */
  lemma LostExecutionIsStale(c: Config, s: Ledger, w: Worker, value: Option<Value>, error: string, now: int)
    requires w.stage == Creating && w.id in s.rows && !Holds(s, w.id, Executing, w.attempt)
    ensures var r := React(c, s, w, WriteReply(value, error), now);
      && After(s, r).rows == s.rows && r.stage.Finished?
      && forall issue :: Created(value, issue) ==> r.stage == Finished(StaleOutcome)
  {
    CreatedIsExact(value);
    LateExecution(s, w, FailedResult(error, false), now);
    LateExecution(s, w, FailedResult(error, true), now);
    LateExecution(s, w, UnknownResult(c, error, ExecutionEnded(Unknown), now), now);
    LateExecution(s, w, UnknownResult(c, MALFORMED_CREATE, ExecutionEnded(Unknown), now), now);
    var t := ClassifyCreateOutcome(value);
    if t.TransportOk? && t.issue.Some? {
      LateExecution(s, w, DispatchedResult(t.issue.value), now);
    }
  }
}
