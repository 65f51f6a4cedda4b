/**
 * What a whole run of the action plane sends to the gateway and where the decisive states of a
 * row come from: every issue posted is the declared one with its marker, every label written was
 * asked for and missing, every failure was a denial, and every approval was a review.
 */
module ActionRuns {
  import opened Common
  import opened ActionReadback
  import opened LedgerSpec
  import opened LedgerInvariants
  import opened LedgerHistory
  import opened LedgerAnswers
  import opened BrokerSteps
  import opened BrokerOutcomes
  import opened Protocol

  // ---------------------------------------------------------------- what is sent

  /** A call that posts an issue posts the action's own: its repository, title, body with marker, and labels. */
  predicate PostsTheAction(s: Ledger, call: Call)
    requires call.PostIssue?
  {
    && call.id in s.rows
    && var p := s.rows[call.id].params;
       call.repo == p.repo && call.title == p.title && call.labels == p.labels
       && call.body == BuildOutgoingBody(p.body, call.id)
  }

  ghost predicate PostsOk(w: World) {
    forall call :: call in w.trace && call.PostIssue? ==> PostsTheAction(w.ledger, call)
  }

  lemma OnlyStartsPost(c: Config, s: Ledger, w: Worker, reply: Reply, now: int)
    ensures forall call :: call in React(c, s, w, reply, now).calls ==> !call.PostIssue?
  {
  }

  lemma StartsPostTheAction(c: Config, s: Ledger, w: Worker, now: int)
    requires w.id in s.rows && w.action.params == s.rows[w.id].params
    ensures forall call :: call in Begin(c, s, w, now).calls && call.PostIssue? ==> PostsTheAction(s, call)
  {
  }

  lemma ParamsStay(c: Config, w: World, step: Step, id: string)
    requires WorldOk(c, w) && id in w.ledger.rows
    ensures id in Apply(c, w, step).ledger.rows && Apply(c, w, step).ledger.rows[id].params == w.ledger.rows[id].params
  {
    StepIsCalls(c, w, step);
    IntentIsKept(w.ledger, StepCalls(c, w, step), c.maxRepair, id);
  }

  lemma StepPosts(c: Config, w: World, step: Step, call: Call)
    requires WorldOk(c, w) && call in Apply(c, w, step).trace && call !in w.trace && call.PostIssue?
    ensures PostsTheAction(w.ledger, call)
  {
    match step
    case Run(i, now) =>
      var worker := Refreshed(w.ledger, w.workers[i]);
      assert w.workers[i] in w.workers;
      StartsPostTheAction(c, w.ledger, worker, now);
    case Answer(i, reply, now) => OnlyStartsPost(c, w.ledger, w.workers[i], reply, now);
    case _ =>
  }

  lemma {:induction false} RunPosts(c: Config, steps: seq<Step>)
    ensures PostsOk(RunAll(c, steps))
  {
    if steps != [] {
      var w, step := RunAll(c, steps[..|steps| - 1]), steps[|steps| - 1];
      RunPosts(c, steps[..|steps| - 1]);
      RunKeepsWorld(c, steps[..|steps| - 1]);
      forall call | call in RunAll(c, steps).trace && call.PostIssue? ensures PostsTheAction(RunAll(c, steps).ledger, call) {
        if call !in w.trace { StepPosts(c, w, step, call); }
        ParamsStay(c, w, step, call.id);
      }
    }
  }

  /** An open issue with exactly this repository, title, body and these labels. */
  ghost predicate MadeFrom(issue: Issue, call: Call)
    requires call.PostIssue?
  {
    && issue.repo == Some(call.repo) && issue.title == Some(call.title) && issue.body == Some(call.body)
    && issue.state == Some("open") && forall l :: l in call.labels ==> Plain(l) in issue.labels
  }

  /**
   * On every run, each issue that is posted for an action is what was declared for it, so an issue
   * made from the post passes that action's readback in full: it can be recognised ever after.
   */
  lemma PostedIssuePassesReadback(c: Config, steps: seq<Step>, call: Call, issue: Issue)
    requires call in RunAll(c, steps).trace && call.PostIssue? && MadeFrom(issue, call)
    ensures call.id in RunAll(c, steps).ledger.rows
    ensures var p := RunAll(c, steps).ledger.rows[call.id].params;
      var e := Expected(call.id, p.repo, p.title, p.body, p.labels);
      && FullyApplied(c.lower, issue, e) && ValidateReadback(c.lower, Some(issue), e).FullReadbackValid?
      && call.repo == p.repo && call.title == p.title && call.labels == p.labels
  {
    RunPosts(c, steps);
    var p := RunAll(c, steps).ledger.rows[call.id].params;
    var e := Expected(call.id, p.repo, p.title, p.body, p.labels);
    forall l | l in e.labels ensures Carries(c.lower, issue, l) {
      assert Plain(l) in issue.labels;
    }
    ReadbackIsExact(c.lower, Some(issue), e);
  }

  /** Call number `k` writes labels: exactly those declared that the issue read just before lacks. */
  ghost predicate LabelsAsked(c: Config, w: World, k: nat)
    requires k < |w.trace| && w.trace[k].WriteLabels?
  {
    && w.trace[k].id in w.ledger.rows
    && k > 0 && w.trace[k - 1].Read? && w.trace[k - 1].id == w.trace[k].id && w.trace[k - 1].issue.Some?
    && forall l :: l in w.trace[k].labels <==>
         l in w.ledger.rows[w.trace[k].id].params.labels && !Carries(c.lower, w.trace[k - 1].issue.value, l)
  }

  ghost predicate LabelsOk(c: Config, w: World) {
    forall k :: 0 <= k < |w.trace| && w.trace[k].WriteLabels? ==> LabelsAsked(c, w, k)
  }

  /** The calls of one stretch: no labels are written, or one read and then the labels that it showed missing. */
  ghost predicate LabelCalls(c: Config, w: Worker, calls: seq<Call>) {
    || (forall call :: call in calls ==> !call.WriteLabels?)
    || (&& |calls| == 2 && calls[0].Read? && calls[0].id == w.id && calls[0].issue.Some?
        && WritesMissingLabels(c, w, calls[0].issue.value, calls[1]))
  }

  lemma StartsWriteNoLabels(c: Config, s: Ledger, w: Worker, now: int)
    ensures forall call :: call in Begin(c, s, w, now).calls ==> !call.WriteLabels?
  {
  }

  lemma ReactionLabels(c: Config, s: Ledger, w: Worker, reply: Reply, now: int)
    ensures LabelCalls(c, w, React(c, s, w, reply, now).calls)
  {
    if w.stage.Inspecting? && reply.GetReply? && LocatorOf(w.action).Some? {
      InspectionLabels(c, s, w, reply.issue, now);
    } else {
      OthersWriteNoLabels(c, s, w, reply, now);
    }
  }

  lemma OthersWriteNoLabels(c: Config, s: Ledger, w: Worker, reply: Reply, now: int)
    requires !(w.stage.Inspecting? && reply.GetReply?) || LocatorOf(w.action).None?
    ensures forall call :: call in React(c, s, w, reply, now).calls ==> !call.WriteLabels?
  {
  }

  lemma InspectionLabels(c: Config, s: Ledger, w: Worker, issue: Option<Issue>, now: int)
    requires LocatorOf(w.action).Some?
    ensures LabelCalls(c, w, AfterInspect(c, s, w, GetReply(issue), now).calls)
  {
    ReadbackIsExact(c.lower, issue, ExpectedOf(w));
    LocatorIsExact(w.action);
  }

  lemma LandedLabels(c: Config, w: World, i: nat, worker: Worker, r: Reaction, k: nat)
    requires WorldOk(c, w) && LabelsOk(c, w) && i < |w.workers|
    requires worker.id == w.workers[i].id && worker.action == w.workers[i].action && LabelCalls(c, worker, r.calls)
    requires forall id :: id in w.ledger.rows ==>
      id in Land(w, i, worker, r).ledger.rows && Land(w, i, worker, r).ledger.rows[id].params == w.ledger.rows[id].params
    requires k < |Land(w, i, worker, r).trace| && Land(w, i, worker, r).trace[k].WriteLabels?
    ensures LabelsAsked(c, Land(w, i, worker, r), k)
  {
    var w' := Land(w, i, worker, r);
    assert w.workers[i] in w.workers;
    if k < |w.trace| {
      assert w'.trace[k] == w.trace[k] && LabelsAsked(c, w, k);
    } else {
      assert w'.trace[k] == r.calls[k - |w.trace|];
    }
  }

  lemma StepLabels(c: Config, w: World, step: Step)
    requires WorldOk(c, w) && LabelsOk(c, w)
    ensures LabelsOk(c, Apply(c, w, step))
  {
    var w' := Apply(c, w, step);
    forall id | id in w.ledger.rows
      ensures id in w'.ledger.rows && w'.ledger.rows[id].params == w.ledger.rows[id].params
    {
      ParamsStay(c, w, step, id);
    }
    forall k | 0 <= k < |w'.trace| && w'.trace[k].WriteLabels? ensures LabelsAsked(c, w', k) {
      if step.Run? && step.worker < |w.workers| {
        var worker := Refreshed(w.ledger, w.workers[step.worker]);
        StartsWriteNoLabels(c, w.ledger, worker, step.now);
        LandedLabels(c, w, step.worker, worker, Begin(c, w.ledger, worker, step.now), k);
      } else if step.Answer? && step.worker < |w.workers| {
        var worker := w.workers[step.worker];
        ReactionLabels(c, w.ledger, worker, step.reply, step.now);
        LandedLabels(c, w, step.worker, worker, React(c, w.ledger, worker, step.reply, step.now), k);
      } else {
        assert w'.trace == w.trace && LabelsAsked(c, w, k);
      }
    }
  }

  /** On every run, the labels written for an action are exactly the declared ones that the issue read just before lacks. */
  lemma {:induction false} WrittenLabelsWereMissing(c: Config, steps: seq<Step>)
    ensures LabelsOk(c, RunAll(c, steps))
  {
    if steps != [] {
      WrittenLabelsWereMissing(c, steps[..|steps| - 1]);
      RunKeepsWorld(c, steps[..|steps| - 1]);
      StepLabels(c, RunAll(c, steps[..|steps| - 1]), steps[|steps| - 1]);
    }
  }

  // ---------------------------------------------------------------- where a failure comes from

  ghost predicate NewFailure(s: Ledger, s': Ledger, id: string) {
    id in s'.rows && s'.rows[id].status == Failed && (id in s.rows ==> s.rows[id].status != Failed)
  }

  lemma BatchesNeverFail(s: Ledger, ttl: nat, now: int, id: string)
    requires TableOk(s)
    ensures !NewFailure(s, ExpireStaleApprovals(s, now).0, id)
    ensures !NewFailure(s, RecoverOrphans(s, ttl, now).0, id)
  {
    ExpireAllAddsNoRow(s, s.order, now);
    RecoverAllAddsNoRow(s, s.order, ttl, now);
    if id in s.rows {
      ExpiryIsExact(s, now, id);
      RecoveryWrites(s, ttl, now, id);
    }
  }

  lemma OthersNeverFail(s: Ledger, op: Op, id: string)
    requires TableOk(s) && Target(op).None?
    ensures !NewFailure(s, Perform(s, op), id)
  {
    match op
    case OpDeclare(task, slot, params, hash, reissues, newId, now) =>
    case OpApprove(k, request, now) =>
    case OpExpire(now) => BatchesNeverFail(s, 0, now, id);
    case OpClaimExecution(k, now) =>
    case OpClaimReconcile(k, now) =>
    case OpClaimRepair(k, now, limit) =>
    case OpRecover(ttl, now) => BatchesNeverFail(s, ttl, now, id);
  }

  /** Only the record of an execution that aims at a failure, on that very action, makes a row fail. */
  lemma FailureNeedsRecord(s: Ledger, op: Op, id: string)
    requires TableOk(s) && NewFailure(s, Perform(s, op), id)
    ensures op.OpRecordExecution? && op.execution.target == Failed && op.id == id
  {
    if Target(op).None? {
      OthersNeverFail(s, op, id);
    } else if op.OpRecordReconcile? {
      ReconcilesNeverFail(s, op, id);
    } else if op.OpRecordRepair? {
      RepairsNeverFail(s, op, id);
    }
  }

  lemma ReconcilesNeverFail(s: Ledger, op: Op, id: string)
    requires op.OpRecordReconcile?
    ensures !NewFailure(s, Perform(s, op), id)
  {
  }

  lemma RepairsNeverFail(s: Ledger, op: Op, id: string)
    requires op.OpRecordRepair?
    ensures !NewFailure(s, Perform(s, op), id)
  {
  }

  /** A worker records a failure only when the answer to its create rules out an effect. */
  lemma ReactionFails(c: Config, s: Ledger, w: Worker, reply: Reply, now: int)
    ensures forall op :: op in React(c, s, w, reply, now).ops && Target(op) == Some(Failed) ==>
      w.stage == Creating && reply.WriteReply? && RulesOutEffect(reply.value)
  {
    if w.stage.Creating? && reply.WriteReply? {
      ClassificationIsExact(reply.value);
    } else {
      OthersRecordNoFailure(c, s, w, reply, now);
    }
  }

  ghost predicate NoFailure(ops: seq<Op>) {
    forall op :: op in ops ==> Target(op) != Some(Failed)
  }

  lemma ExecutionRecordsNoFailure(c: Config, s: Ledger, w: Worker, reply: Reply, now: int)
    requires w.stage.ReadingBack? || (w.stage.Creating? && !reply.WriteReply?)
    ensures NoFailure(React(c, s, w, reply, now).ops)
  {
  }

  lemma ReconcileRecordsNoFailure(c: Config, s: Ledger, w: Worker, reply: Reply, now: int)
    requires w.stage.Searching? || w.stage.Fetching?
    ensures NoFailure(React(c, s, w, reply, now).ops)
  {
  }

  lemma RepairRecordsNoFailure(c: Config, s: Ledger, w: Worker, reply: Reply, now: int)
    requires w.stage.Inspecting? || w.stage.Labelling? || w.stage.Confirming?
    ensures NoFailure(React(c, s, w, reply, now).ops)
  {
  }

  lemma OthersRecordNoFailure(c: Config, s: Ledger, w: Worker, reply: Reply, now: int)
    requires !(w.stage.Creating? && reply.WriteReply?)
    ensures NoFailure(React(c, s, w, reply, now).ops)
  {
    if w.stage.ReadingBack? || w.stage.Creating? {
      ExecutionRecordsNoFailure(c, s, w, reply, now);
    } else if w.stage.Searching? || w.stage.Fetching? {
      ReconcileRecordsNoFailure(c, s, w, reply, now);
    } else if w.stage.Inspecting? || w.stage.Labelling? || w.stage.Confirming? {
      RepairRecordsNoFailure(c, s, w, reply, now);
    }
  }

  lemma StartsRecordNoFailure(c: Config, s: Ledger, w: Worker, now: int)
    ensures NoFailure(Begin(c, s, w, now).ops)
  {
  }

  /** Step number `n` is an answer that ruled out an effect, to the create that was under way for the action. */
  ghost predicate DeniedAt(c: Config, steps: seq<Step>, n: nat, id: string) {
    && n < |steps| && steps[n].Answer? && steps[n].reply.WriteReply? && RulesOutEffect(steps[n].reply.value)
    && steps[n].worker < |RunAll(c, steps[..n]).workers|
    && RunAll(c, steps[..n]).workers[steps[n].worker].id == id
    && RunAll(c, steps[..n]).workers[steps[n].worker].stage == Creating
  }

  lemma AnswerFails(c: Config, s: Ledger, w: Worker, reply: Reply, now: int, op: Op)
    requires op in React(c, s, w, reply, now).ops && Target(op) == Some(Failed)
    ensures reply.WriteReply? && RulesOutEffect(reply.value) && w.stage == Creating && op.id == w.id
  {
    ReactionFails(c, s, w, reply, now);
    ReactIsTame(c, s, w, reply, now);
  }

  /** The record that makes a row fail is made by a worker on its own action, on such an answer. */
  lemma FailingStep(c: Config, w: World, step: Step, op: Op)
    requires op in StepCalls(c, w, step) && Target(op) == Some(Failed)
    ensures step.Answer? && step.reply.WriteReply? && RulesOutEffect(step.reply.value) && step.worker < |w.workers|
    ensures w.workers[step.worker].id == op.id && w.workers[step.worker].stage == Creating
  {
    match step
    case Run(i, now) => StartsRecordNoFailure(c, w.ledger, Refreshed(w.ledger, w.workers[i]), now);
    case Answer(i, reply, now) => AnswerFails(c, w.ledger, w.workers[i], reply, now, op);
    case _ =>
  }

  lemma StepFails(c: Config, w: World, step: Step, id: string)
    requires WorldOk(c, w) && NewFailure(w.ledger, Apply(c, w, step).ledger, id)
    ensures StepCalls(c, w, step) != []
    ensures var op := StepCalls(c, w, step)[0]; op.OpRecordExecution? && op.execution.target == Failed && op.id == id
  {
    StepIsCalls(c, w, step);
    var ops := StepCalls(c, w, step);
    assert ops != [];
    assert ops == [ops[0]];
    OneCall(w.ledger, ops[0]);
    FailureNeedsRecord(w.ledger, ops[0], id);
  }

  /**
   * On every run an action that shows `failed` got there by an answer that rules out an effect of
   * its create: no timeout, lost response or broken server ever ends an action for good.
   */
  lemma {:induction false} FailureWasDenied(c: Config, steps: seq<Step>, id: string) returns (n: nat)
    requires id in RunAll(c, steps).ledger.rows && RunAll(c, steps).ledger.rows[id].status == Failed
    ensures DeniedAt(c, steps, n, id)
  {
    var last := |steps| - 1;
    var front := steps[..last];
    var w := RunAll(c, front);
    if id in w.ledger.rows && w.ledger.rows[id].status == Failed {
      n := FailureWasDenied(c, front, id);
      assert front[..n] == steps[..n];
    } else {
      RunKeepsWorld(c, front);
      StepFails(c, w, steps[last], id);
      FailingStep(c, w, steps[last], StepCalls(c, w, steps[last])[0]);
      n := last;
    }
  }

  // ---------------------------------------------------------------- where an approval comes from

  /** Step number `n` is a call of someone who had reviewed these parameters and approved them. */
  predicate ApprovedAt(steps: seq<Step>, n: nat, id: string, hash: string, a: Approval) {
    && n < |steps| && steps[n].External? && steps[n].op.OpApprove? && steps[n].op.id == id && steps[n].op.now == a.at
    && var request := steps[n].op.request;
       request.expectedHash == hash && request.cookie && request.approver == a.approver && request.policy == a.policy
       && request.expiresAt == a.expiresAt && a.at < a.expiresAt
  }

  lemma {:induction false} ApprovalsAreExternal(c: Config, steps: seq<Step>, op: Op) returns (n: nat)
    requires op in RunCalls(c, steps) && op.OpApprove?
    ensures n < |steps| && steps[n] == External(op)
  {
    var last := |steps| - 1;
    if op in RunCalls(c, steps[..last]) {
      n := ApprovalsAreExternal(c, steps[..last], op);
    } else {
      StepApproves(c, RunAll(c, steps[..last]), steps[last], op);
      n := last;
    }
  }

  lemma StepApproves(c: Config, w: World, step: Step, op: Op)
    requires op in StepCalls(c, w, step) && op.OpApprove?
    ensures step == External(op)
  {
    match step
    case Run(i, now) => BeginIsTame(c, w.ledger, Refreshed(w.ledger, w.workers[i]), now);
    case Answer(i, reply, now) => ReactIsTame(c, w.ledger, w.workers[i], reply, now);
    case _ =>
  }

  lemma GivenCall(ops: seq<Op>, id: string, a: Approval) returns (op: Op)
    requires exists m: nat :: GivenBy(ops, m, id, a)
    ensures op in ops && op.OpApprove? && GivenBy([op], 0, id, a)
  {
    var m: nat :| GivenBy(ops, m, id, a);
    op := ops[m];
  }

  /**
   * On every run, the approval under which an action is or was executed is one that a caller gave
   * after reviewing exactly the parameters that the action has, by cookie and for a time ahead.
   */
  lemma ApprovalWasReviewed(c: Config, steps: seq<Step>, id: string) returns (n: nat)
    requires id in RunAll(c, steps).ledger.rows && RunAll(c, steps).ledger.rows[id].status != AwaitingApproval
    ensures var r := RunAll(c, steps).ledger.rows[id];
      r.approval.Some? && ApprovedAt(steps, n, id, r.hash, r.approval.value)
  {
    ReachableTablesAreSound(c, steps);
    RunIsCalls(c, steps);
    var r := RunAll(c, steps).ledger.rows[id];
    assert RowOk(r);
    StoredApprovalWasGiven(RunCalls(c, steps), c.maxRepair, id);
    var op := GivenCall(RunCalls(c, steps), id, r.approval.value);
    n := ApprovalsAreExternal(c, steps, op);
  }

  /** Step number `n` is a review by cookie of parameters with this hash, logged at this time. */
  predicate LoggedAt(steps: seq<Step>, n: nat, id: string, hash: string, at: int) {
    && n < |steps| && steps[n].External? && steps[n].op.OpApprove? && steps[n].op.id == id && steps[n].op.now == at
    && steps[n].op.request.expectedHash == hash && steps[n].op.request.cookie && at < steps[n].op.request.expiresAt
  }

  /** And so for every approval the event log shows. */
  lemma LoggedApprovalWasReviewed(c: Config, steps: seq<Step>, e: Event) returns (n: nat)
    requires e in RunAll(c, steps).ledger.events && e.phase == ApprovalQueued
    ensures e.action in RunAll(c, steps).ledger.rows
    ensures LoggedAt(steps, n, e.action, RunAll(c, steps).ledger.rows[e.action].hash, e.ts)
  {
    RunIsCalls(c, steps);
    EveryApprovalWasReviewed(RunCalls(c, steps), c.maxRepair, e);
    var op := ReviewedCall(RunCalls(c, steps), e.action, e.ts, RunAll(c, steps).ledger.rows[e.action].hash);
    n := ApprovalsAreExternal(c, steps, op);
  }

  lemma ReviewedCall(ops: seq<Op>, id: string, at: int, hash: string) returns (op: Op)
    requires exists m: nat :: ReviewedBy(ops, m, id, at, hash)
    ensures op in ops && op.OpApprove? && ReviewedBy([op], 0, id, at, hash)
  {
    var m: nat :| ReviewedBy(ops, m, id, at, hash);
    op := ops[m];
  }
}
