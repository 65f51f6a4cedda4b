/**
 * What the protocol gets done when the gateway answers: an approved action is created, one whose
 * reply was lost is found again without a second create, and missing labels are added. Each
 * statement starts in any state of the system in which the row is ready.
 */
module Progress {
  import opened Common
  import opened ActionReadback
  import opened LedgerSpec
  import opened LedgerAnswers
  import opened BrokerSteps
  import opened BrokerOutcomes
  import opened Protocol

  /** The issue is what the row declares: open, in its repository, with title, body, marker and all labels. */
  ghost predicate IsApplied(c: Config, id: string, row: Row, issue: Issue) {
    && Identified(Some(issue))
    && FullyApplied(c.lower, issue, Expected(id, row.params.repo, row.params.title, row.params.body, row.params.labels))
  }

  ghost predicate Free(s: Ledger, id: string, issue: Issue) {
    !Belongs(s, id, Set(issue.nodeId))
  }

  /** The newest worker is at this stage of its operation on the row, and holds its lease. */
  ghost predicate AtWork(w: World, id: string, row: Row, now: int, stage: Stage) {
    && w.workers != []
    && var worker := w.workers[|w.workers| - 1];
       && worker.id == id && worker.stage == stage && worker.now == now
       && worker.action.params == row.params && worker.action.externalId == row.externalId
       && Holds(w.ledger, id, HeldAs(stage), worker.attempt)
  }

  /** The status a row has while a worker at this stage holds it. */
  function HeldAs(stage: Stage): Status {
    if stage.ExecuteStart? || stage.Creating? || stage.ReadingBack? then Executing
    else if stage.ReconcileStart? || stage.Searching? || stage.Fetching? then Reconciling
    else Repairing
  }

  /** No action gains or loses an identity. */
  ghost predicate SameIdentities(s: Ledger, s': Ledger) {
    s'.rows.Keys == s.rows.Keys && forall k :: k in s.rows ==> s'.rows[k].nodeId == s.rows[k].nodeId
  }

  lemma StaysFree(s: Ledger, s': Ledger, id: string, issue: Issue)
    requires SameIdentities(s, s') && Free(s, id, issue)
    ensures Free(s', id, issue)
  {
  }

  /** An answer to the newest worker. */
  function Answered(c: Config, w: World, reply: Reply, now: int): World
    requires w.workers != []
  {
    Apply(c, w, Answer(|w.workers| - 1, reply, now))
  }

  /** Where an answer leaves the system, given the reaction to it. */
  ghost predicate LandsAs(w: World, v: World, r: Reaction) {
    && w.workers != [] && |v.workers| == |w.workers|
    && v.ledger == After(w.ledger, r) && v.trace == w.trace + r.calls
    && var n := |w.workers| - 1; v.workers[n] == w.workers[n].(stage := r.stage)
  }

  lemma AnswerLands(c: Config, w: World, reply: Reply, t: int)
    requires w.workers != []
    ensures LandsAs(w, Answered(c, w, reply, t), React(c, w.ledger, w.workers[|w.workers| - 1], reply, t))
  {
  }

  /** What follows when the reaction to an answer ends the operation in success. */
  lemma EndsInSuccess(w: World, v: World, r: Reaction, id: string, calls: seq<Call>)
    requires LandsAs(w, v, r) && Ends(w.ledger, r, id, Succeeded) && r.calls == calls
    ensures Settled(v.ledger, id, Succeeded) && v.trace == w.trace + calls
  {
  }

  /** What follows when the reaction makes no call of the ledger and the operation goes on. */
  lemma GoesOn(w: World, v: World, r: Reaction, id: string, row: Row, now: int, stage: Stage)
    requires AtWork(w, id, row, now, stage) && LandsAs(w, v, r) && r.ops == [] && HeldAs(r.stage) == HeldAs(stage)
    ensures AtWork(v, id, row, now, r.stage) && v.ledger == w.ledger
  {
  }

  function Post(id: string, row: Row): Call {
    PostIssue(id, row.params.repo, row.params.title, BuildOutgoingBody(row.params.body, id), row.params.labels)
  }

  // ---------------------------------------------------------------- create

  /** The execution is claimed and has sent its create. */
  function Dispatched(c: Config, w: World, id: string, now: int): World {
    Apply(c, Apply(c, w, SpawnExecute(id, now)), Run(|w.workers|, now))
  }

  lemma ExecutionStarts(c: Config, w: World, id: string, now: int)
    requires id in w.ledger.rows && w.ledger.rows[id].status == Queued && ApprovalRuns(w.ledger.rows[id], now)
    ensures var v := Dispatched(c, w, id, now);
      && AtWork(v, id, w.ledger.rows[id], now, Creating)
      && v.trace == w.trace + [Post(id, w.ledger.rows[id])]
      && SameIdentities(w.ledger, v.ledger) && v.ledger.rows[id].params == w.ledger.rows[id].params
  {
    ExecutionClaimIsExact(w.ledger, id, now);
  }

  /** The gateway hands back the issue, and shows it as declared when it is read. */
  lemma ApprovedActionSucceeds(c: Config, w: World, id: string, now: int, value: Option<Value>, error: string, t1: int,
                               issue: Issue, t2: int)
    requires id in w.ledger.rows && w.ledger.rows[id].status == Queued && ApprovalRuns(w.ledger.rows[id], now)
    requires Created(value, issue) && Free(w.ledger, id, issue) && IsApplied(c, id, w.ledger.rows[id], issue)
    ensures var started := Dispatched(c, w, id, now);
      && started.workers != []
      && var posted := Answered(c, started, WriteReply(value, error), t1);
         && posted.workers != []
         && var v := Answered(c, posted, GetReply(Some(issue)), t2);
            && Settled(v.ledger, id, Succeeded) && PointsAt(v.ledger.rows[id], issue)
            && v.trace == w.trace + [Post(id, w.ledger.rows[id]), Read(id, Some(issue))]
  {
    var row := w.ledger.rows[id];
    ExecutionStarts(c, w, id, now);
    var started := Dispatched(c, w, id, now);
    StaysFree(w.ledger, started.ledger, id, issue);
    CreatedIssueIsReadBack(c, started, id, row, now, value, error, t1, issue);
    ReadbackSucceeds(c, Answered(c, started, WriteReply(value, error), t1), id, row, now, issue, t2);
  }

  lemma CreatedIssueIsReadBack(c: Config, w: World, id: string, row: Row, now: int, value: Option<Value>, error: string, t: int,
                               issue: Issue)
    requires AtWork(w, id, row, now, Creating) && Created(value, issue) && Free(w.ledger, id, issue)
    ensures var v := Answered(c, w, WriteReply(value, error), t);
      && AtWork(v, id, row, now, ReadingBack(issue)) && v.trace == w.trace && PointsAt(v.ledger.rows[id], issue)
  {
    var worker := w.workers[|w.workers| - 1];
    AnswerLands(c, w, WriteReply(value, error), t);
    CreateAnswerDecides(c, w.ledger, worker, value, error, t);
    var r := React(c, w.ledger, worker, WriteReply(value, error), t);
    assert r.stage == ReadingBack(issue) && r.calls == [];
  }

  lemma ReadbackSucceeds(c: Config, w: World, id: string, row: Row, now: int, issue: Issue, t: int)
    requires AtWork(w, id, row, now, ReadingBack(issue)) && IsApplied(c, id, row, issue) && PointsAt(w.ledger.rows[id], issue)
    ensures var v := Answered(c, w, GetReply(Some(issue)), t);
      && Settled(v.ledger, id, Succeeded) && PointsAt(v.ledger.rows[id], issue)
      && v.trace == w.trace + [Read(id, Some(issue))]
  {
    var worker, v := w.workers[|w.workers| - 1], Answered(c, w, GetReply(Some(issue)), t);
    AnswerLands(c, w, GetReply(Some(issue)), t);
    ReadbackAnswerDecides(c, w.ledger, worker, Some(issue), t);
    assert Applied(c, worker, Some(issue));
    EndsInSuccess(w, v, React(c, w.ledger, worker, GetReply(Some(issue)), t), id, [Read(id, Some(issue))]);
  }
  /** A create whose reply is lost, or says nothing certain, leaves the row to be found again. */
  lemma LostReplyLeavesUnknown(c: Config, w: World, id: string, now: int, value: Option<Value>, error: string, t1: int)
    requires id in w.ledger.rows && w.ledger.rows[id].status == Queued && ApprovalRuns(w.ledger.rows[id], now)
    requires !RulesOutEffect(value) && forall issue :: !Created(value, issue)
    ensures var started := Dispatched(c, w, id, now);
      && started.workers != []
      && var v := Answered(c, started, WriteReply(value, error), t1);
         && UnknownUntil(v.ledger, id, t1 + c.reconcileDelay)
         && v.ledger.rows[id].params == w.ledger.rows[id].params
         && v.trace == w.trace + [Post(id, w.ledger.rows[id])]
         && SameIdentities(w.ledger, v.ledger)
  {
    ExecutionStarts(c, w, id, now);
    DoubtLands(c, Dispatched(c, w, id, now), id, w.ledger.rows[id], now, value, error, t1);
  }

  lemma DoubtLands(c: Config, w: World, id: string, row: Row, now: int, value: Option<Value>, error: string, t: int)
    requires AtWork(w, id, row, now, Creating)
    requires !RulesOutEffect(value) && forall issue :: !Created(value, issue)
    ensures var v := Answered(c, w, WriteReply(value, error), t);
      && UnknownUntil(v.ledger, id, t + c.reconcileDelay) && v.trace == w.trace
      && SameIdentities(w.ledger, v.ledger) && v.ledger.rows[id].params == w.ledger.rows[id].params
  {
    var worker := w.workers[|w.workers| - 1];
    AnswerLands(c, w, WriteReply(value, error), t);
    CreateAnswerDecides(c, w.ledger, worker, value, error, t);
    DoubtTouchesStatusOnly(c, w.ledger, worker, value, error, t);
  }

  lemma DoubtTouchesStatusOnly(c: Config, s: Ledger, worker: Worker, value: Option<Value>, error: string, now: int)
    requires worker.stage == Creating && Holds(s, worker.id, Executing, worker.attempt)
    requires !RulesOutEffect(value) && forall issue :: !Created(value, issue)
    ensures var s' := After(s, React(c, s, worker, WriteReply(value, error), now));
      SameIdentities(s, s') && s'.rows[worker.id].params == s.rows[worker.id].params
  {
    ClassificationIsExact(value);
    CreatedIsExact(value);
    var t := ClassifyCreateOutcome(value);
    if t.TransportOk? && t.issue.Some? {
      assert !Created(value, t.issue.value);
    }
    var text := if t.Ambiguous? then error else MALFORMED_CREATE;
    UnknownTouchesStatusOnly(s, worker, UnknownResult(c, text, ExecutionEnded(Unknown), now), now);
  }

  lemma UnknownTouchesStatusOnly(s: Ledger, worker: Worker, result: ExecutionResult, now: int)
    requires Holds(s, worker.id, Executing, worker.attempt) && result.target == Unknown && result.nodeId == Keep
    ensures var s' := PerformAll(s, [OpRecordExecution(worker.id, worker.attempt, result, now)]);
      SameIdentities(s, s') && s'.rows[worker.id].params == s.rows[worker.id].params
  {
    OneCall(s, OpRecordExecution(worker.id, worker.attempt, result, now));
    ExecutionRecordIsExact(s, worker.id, worker.attempt, result, now);
  }

  // ---------------------------------------------------------------- reconcile

  /** The row is claimed and a search for its marker is under way. */
  function SearchedFor(c: Config, w: World, id: string, now: int): World {
    Apply(c, Apply(c, w, SpawnReconcile(id, now)), Run(|w.workers|, now))
  }

  lemma ReconcileStarts(c: Config, w: World, id: string, now: int)
    requires id in w.ledger.rows && ClaimReconcile(w.ledger, id, now).1.Some?
    ensures var v := SearchedFor(c, w, id, now);
      && AtWork(v, id, w.ledger.rows[id], now, Searching)
      && v.trace == w.trace && SameIdentities(w.ledger, v.ledger)
  {
    ReconcileClaimIsExact(w.ledger, id, now);
    ReconcileSearches(c, Apply(c, w, SpawnReconcile(id, now)).ledger,
                      Apply(c, w, SpawnReconcile(id, now)).workers[|w.workers|], now);
  }

  lemma SearchGoesOn(c: Config, w: World, id: string, row: Row, now: int, t: int)
    requires AtWork(w, id, row, now, Searching)
    ensures var v := Answered(c, w, SearchReply(1), t);
      AtWork(v, id, row, now, Fetching(1, [])) && v.ledger == w.ledger && v.trace == w.trace
  {
    var worker := w.workers[|w.workers| - 1];
    AnswerLands(c, w, SearchReply(1), t);
    SearchAnswerDecides(c, w.ledger, worker, 1, t);
    GoesOn(w, Answered(c, w, SearchReply(1), t), React(c, w.ledger, worker, SearchReply(1), t), id, row, now, Searching);
  }

  lemma FetchedIssueIsAdopted(c: Config, w: World, id: string, row: Row, now: int, issue: Issue, t: int)
    requires AtWork(w, id, row, now, Fetching(1, [])) && Free(w.ledger, id, issue) && IsApplied(c, id, row, issue)
    ensures var v := Answered(c, w, GetReply(Some(issue)), t);
      && Settled(v.ledger, id, Succeeded) && PointsAt(v.ledger.rows[id], issue)
      && v.trace == w.trace + [Read(id, Some(issue))]
  {
    var worker, fetched, calls := w.workers[|w.workers| - 1], [Some(issue)], [Read(id, Some(issue))];
    AnswerLands(c, w, GetReply(Some(issue)), t);
    EveryCandidateIsFetched(c, w.ledger, worker, 1, [], Some(issue), t);
    assert [] + [Some(issue)] == fetched;
    AppliedIsTheIssue(c, worker, issue);
    assert OneOnly(c, worker, fetched) && !Several(c, worker, fetched);
    CandidatesDecide(c, w.ledger, worker, fetched, calls, t);
    EndsInSuccess(w, Answered(c, w, GetReply(Some(issue)), t), Concluded(c, w.ledger, worker, fetched, calls, t), id, calls);
  }

  /** An unknown row whose issue the search finds, and that shows as declared, succeeds; nothing is written to the gateway. */
  lemma UnknownActionIsFound(c: Config, w: World, id: string, now: int, t1: int, issue: Issue, t2: int)
    requires id in w.ledger.rows && ClaimReconcile(w.ledger, id, now).1.Some?
    requires Free(w.ledger, id, issue) && IsApplied(c, id, w.ledger.rows[id], issue)
    ensures var searched := SearchedFor(c, w, id, now);
      && searched.workers != []
      && var found := Answered(c, searched, SearchReply(1), t1);
         && found.workers != []
         && var v := Answered(c, found, GetReply(Some(issue)), t2);
            && Settled(v.ledger, id, Succeeded) && PointsAt(v.ledger.rows[id], issue)
            && v.trace == w.trace + [Read(id, Some(issue))]
  {
    ReconcileStarts(c, w, id, now);
    var searched := SearchedFor(c, w, id, now);
    StaysFree(w.ledger, searched.ledger, id, issue);
    SearchGoesOn(c, searched, id, w.ledger.rows[id], now, t1);
    FetchedIssueIsAdopted(c, Answered(c, searched, SearchReply(1), t1), id, w.ledger.rows[id], now, issue, t2);
  }

  lemma AppliedIsTheIssue(c: Config, worker: Worker, issue: Issue)
    requires Identified(Some(issue)) && FullyApplied(c.lower, issue, ExpectedOf(worker))
    ensures IsTheIssue(c, worker, Some(issue)) && Applied(c, worker, Some(issue))
  {
  }

  /**
   * A reply that is lost costs nothing but time: once the delay is over, a reconcile whose search
   * finds the issue ends the action in success, and the issue was posted once.
   */
  lemma LostReplyIsRecovered(c: Config, w: World, id: string, now: int, value: Option<Value>, error: string, t1: int,
                             later: int, t2: int, issue: Issue, t3: int)
    requires id in w.ledger.rows && w.ledger.rows[id].status == Queued && ApprovalRuns(w.ledger.rows[id], now)
    requires !RulesOutEffect(value) && forall other :: !Created(value, other)
    requires Free(w.ledger, id, issue) && IsApplied(c, id, w.ledger.rows[id], issue) && later >= t1 + c.reconcileDelay
    ensures var started := Dispatched(c, w, id, now);
      && started.workers != []
      && var lost := Answered(c, started, WriteReply(value, error), t1);
         var searched := SearchedFor(c, lost, id, later);
         && searched.workers != []
         && var found := Answered(c, searched, SearchReply(1), t2);
            && found.workers != []
            && var v := Answered(c, found, GetReply(Some(issue)), t3);
               && Settled(v.ledger, id, Succeeded) && PointsAt(v.ledger.rows[id], issue)
               && v.trace == w.trace + [Post(id, w.ledger.rows[id]), Read(id, Some(issue))]
  {
    LostReplyLeavesUnknown(c, w, id, now, value, error, t1);
    var lost := Answered(c, Dispatched(c, w, id, now), WriteReply(value, error), t1);
    StaysFree(w.ledger, lost.ledger, id, issue);
    UnknownActionIsFound(c, lost, id, later, t2, issue, t3);
  }

  // ---------------------------------------------------------------- repair

  /** The row is claimed for repair and its issue is being read. */
  function UnderRepair(c: Config, w: World, id: string, now: int): World {
    Apply(c, Apply(c, w, SpawnRepair(id, now)), Run(|w.workers|, now))
  }

  /** A repair of the row can be claimed now, and the row says where its issue is. */
  ghost predicate ReadyForRepair(c: Config, row: Row, now: int) {
    && RepairIsDue(row, now) && row.repairAttempts < c.maxRepair
    && row.approval.Some? && now < row.approval.value.expiresAt
    && exists repo, number :: StandsAt(row, repo, number)
  }

  lemma SameStand(a: Row, b: Row)
    requires a.params == b.params && a.externalId == b.externalId
    ensures forall repo, number :: StandsAt(a, repo, number) <==> StandsAt(b, repo, number)
  {
  }

  lemma RepairBegins(c: Config, w: World, id: string, now: int)
    requires id in w.ledger.rows && ReadyForRepair(c, w.ledger.rows[id], now)
    ensures var v := UnderRepair(c, w, id, now);
      && AtWork(v, id, w.ledger.rows[id], now, Inspecting)
      && v.trace == w.trace
  {
    var row, claimed := w.ledger.rows[id], Apply(c, w, SpawnRepair(id, now));
    RepairIsClaimed(c, w, id, now);
    var worker := Refreshed(claimed.ledger, claimed.workers[|w.workers|]);
    SameStand(row, worker.action);
    BrokerOutcomes.RepairStarts(c, claimed.ledger, worker, now);
    var v := Apply(c, claimed, Run(|w.workers|, now));
    assert v == Land(claimed, |w.workers|, worker, Reaction([], [], Inspecting));
  }

  lemma RepairIsClaimed(c: Config, w: World, id: string, now: int)
    requires id in w.ledger.rows && ReadyForRepair(c, w.ledger.rows[id], now)
    ensures var v := Apply(c, w, SpawnRepair(id, now));
      AtWork(v, id, w.ledger.rows[id], now, RepairStart) && v.trace == w.trace && |v.workers| == |w.workers| + 1
  {
    RepairClaimIsExact(w.ledger, id, now, c.maxRepair);
  }

  lemma LackingIssueIsLabelled(c: Config, w: World, id: string, row: Row, now: int, before: Issue, t: int)
    requires AtWork(w, id, row, now, Inspecting) && exists repo, number :: StandsAt(row, repo, number)
    requires Lacks(c, id, row, before)
    ensures var v := Answered(c, w, GetReply(Some(before)), t);
      && AtWork(v, id, row, now, Labelling(Some(before))) && |v.trace| == |w.trace| + 2
      && w.trace <= v.trace && AddsMissing(c, row, before, v.trace[|w.trace| + 1])
  {
    var worker, v := w.workers[|w.workers| - 1], Answered(c, w, GetReply(Some(before)), t);
    SameStand(row, worker.action);
    AnswerLands(c, w, GetReply(Some(before)), t);
    InspectionDecides(c, w.ledger, worker, Some(before), t);
    var r := React(c, w.ledger, worker, GetReply(Some(before)), t);
    assert LacksLabels(c, worker, Some(before));
    GoesOn(w, v, r, id, row, now, Inspecting);
    assert v.trace[|w.trace| + 1] == r.calls[1];
  }

  lemma WrittenLabelsAreRead(c: Config, w: World, id: string, row: Row, now: int, before: Issue, value: Option<Value>,
                             error: string, t: int)
    requires AtWork(w, id, row, now, Labelling(Some(before))) && Written(value)
    ensures var v := Answered(c, w, WriteReply(value, error), t);
      AtWork(v, id, row, now, Confirming(Some(before))) && v.trace == w.trace
  {
    var worker := w.workers[|w.workers| - 1];
    AnswerLands(c, w, WriteReply(value, error), t);
    LabelAnswerDecides(c, w.ledger, worker, Some(before), value, error, t);
    GoesOn(w, Answered(c, w, WriteReply(value, error), t), React(c, w.ledger, worker, WriteReply(value, error), t), id, row, now,
           Labelling(Some(before)));
  }

  lemma LabelledIssueSucceeds(c: Config, w: World, id: string, row: Row, now: int, before: Issue, after: Issue, t: int)
    requires AtWork(w, id, row, now, Confirming(Some(before)))
    requires FullyApplied(c.lower, after, Expected(id, row.params.repo, row.params.title, row.params.body, row.params.labels))
    ensures var v := Answered(c, w, GetReply(Some(after)), t);
      Settled(v.ledger, id, Succeeded) && v.trace == w.trace + [Read(id, Some(after))]
  {
    var worker, v := w.workers[|w.workers| - 1], Answered(c, w, GetReply(Some(after)), t);
    AnswerLands(c, w, GetReply(Some(after)), t);
    ConfirmationDecides(c, w.ledger, worker, Some(after), t);
    assert Applied(c, worker, Some(after));
    EndsInSuccess(w, v, React(c, w.ledger, worker, GetReply(Some(after)), t), id, [Read(id, Some(after))]);
  }

  /** The issue is what the row declares but for some label. */
  ghost predicate Lacks(c: Config, id: string, row: Row, issue: Issue) {
    var e := Expected(id, row.params.repo, row.params.title, row.params.body, row.params.labels);
    FullyApplied(c.lower, issue, e.(labels := [])) && !FullyApplied(c.lower, issue, e)
  }

  /**
   * An issue that lacks labels gets exactly those, where the row says it is, and when it then shows
   * all of them the action succeeds.
   */
  lemma MissingLabelsAreAdded(c: Config, w: World, id: string, now: int, before: Issue, t1: int, value: Option<Value>,
                              error: string, t2: int, after: Issue, t3: int)
    requires id in w.ledger.rows && ReadyForRepair(c, w.ledger.rows[id], now)
    requires Lacks(c, id, w.ledger.rows[id], before) && Written(value)
    requires var p := w.ledger.rows[id].params;
      FullyApplied(c.lower, after, Expected(id, p.repo, p.title, p.body, p.labels))
    ensures var inspecting := UnderRepair(c, w, id, now);
      && inspecting.workers != []
      && var writing := Answered(c, inspecting, GetReply(Some(before)), t1);
         && writing.workers != []
         && var confirming := Answered(c, writing, WriteReply(value, error), t2);
            && confirming.workers != []
            && var v := Answered(c, confirming, GetReply(Some(after)), t3);
               && Settled(v.ledger, id, Succeeded)
               && |v.trace| == |w.trace| + 3 && w.trace <= v.trace
               && AddsMissing(c, w.ledger.rows[id], before, v.trace[|w.trace| + 1])
  {
    var row := w.ledger.rows[id];
    RepairBegins(c, w, id, now);
    var inspecting := UnderRepair(c, w, id, now);
    LackingIssueIsLabelled(c, inspecting, id, row, now, before, t1);
    var writing := Answered(c, inspecting, GetReply(Some(before)), t1);
    WrittenLabelsAreRead(c, writing, id, row, now, before, value, error, t2);
    LabelledIssueSucceeds(c, Answered(c, writing, WriteReply(value, error), t2), id, row, now, before, after, t3);
  }

  /** A write of exactly the declared labels that the issue lacks, where the row says it is. */
  ghost predicate AddsMissing(c: Config, row: Row, issue: Issue, call: Call) {
    && call.WriteLabels? && StandsAt(row, call.repo, call.number)
    && forall l :: l in call.labels <==> l in row.params.labels && !Carries(c.lower, issue, l)
  }
}
