/**
 * The whole action plane: one ledger, any number of workers interleaved at every await, a
 * gateway that may answer anything, workers that may crash anywhere, and callers that
 * declare, approve, expire and recover at any time by any clock. The theorems quantify over
 * every such run. Each claim starts one operation: `executeClaimedAction` runs once per claim.
 */
module Protocol {
  import opened Common
  import opened ActionReadback
  import opened LedgerSpec
  import opened LedgerInvariants
  import opened LedgerHistory
  import opened BrokerSteps

  datatype World = World(ledger: Ledger, workers: seq<Worker>, trace: seq<Call>)

  const NEW_WORLD := World(EMPTY, [], [])

  datatype Step =
    | External(op: Op)
    | SpawnExecute(id: string, now: int)
    | SpawnReconcile(id: string, now: int)
    | SpawnRepair(id: string, now: int)
    | Run(worker: nat, now: int)
    | Answer(worker: nat, reply: Reply, now: int)
    | Crash(worker: nat)

  /** Calls anyone may make; claims and records are made by workers. */
  predicate Foreign(op: Op) {
    op.OpDeclare? || op.OpApprove? || op.OpExpire? || op.OpRecover?
  }

  function Started(s: Ledger, id: string, attempt: nat, now: int, stage: Stage): Worker
    requires id in s.rows
  {
    Worker(id, attempt, s.rows[id], s.rows[id].repairAttempts, now, stage)
  }

  /** The first stretch of an operation reads the row again. */
  function Refreshed(s: Ledger, w: Worker): Worker {
    if w.id in s.rows then w.(attempts := s.rows[w.id].repairAttempts) else w
  }

  function Land(w: World, i: nat, worker: Worker, r: Reaction): World
    requires i < |w.workers|
  {
    World(PerformAll(w.ledger, r.ops), w.workers[i := worker.(stage := r.stage)], w.trace + r.calls)
  }

  /** After a claim: a worker starts if the claim was won. */
  function Spawned(w: World, s: Ledger, id: string, claim: Option<nat>, now: int, stage: Stage): World {
    if claim.Some? && id in s.rows
    then w.(ledger := s, workers := w.workers + [Started(s, id, claim.value, now, stage)])
    else w.(ledger := s)
  }

  function Won(claim: RepairClaim): Option<nat> {
    match claim
    case Claimed(attempt) => Some(attempt)
    case _ => None
  }

  function Apply(c: Config, w: World, step: Step): World {
    match step
    case External(op) => if Foreign(op) then w.(ledger := Perform(w.ledger, op)) else w
    case SpawnExecute(id, now) =>
      var (s, claim) := ClaimExecution(w.ledger, id, now);
      Spawned(w, s, id, claim, now, ExecuteStart)
    case SpawnReconcile(id, now) =>
      var (s, claim) := ClaimReconcile(w.ledger, id, now);
      Spawned(w, s, id, claim, now, ReconcileStart)
    case SpawnRepair(id, now) =>
      var (s, claim) := ClaimRepair(w.ledger, id, now, c.maxRepair);
      Spawned(w, s, id, Won(claim), now, RepairStart)
    case Run(i, now) =>
      if i < |w.workers| then
        var worker := Refreshed(w.ledger, w.workers[i]);
        Land(w, i, worker, Begin(c, w.ledger, worker, now))
      else w
    case Answer(i, reply, now) =>
      if i < |w.workers| then Land(w, i, w.workers[i], React(c, w.ledger, w.workers[i], reply, now)) else w
    case Crash(i) =>
      if i < |w.workers| then w.(workers := w.workers[i := w.workers[i].(stage := Finished(Crashed))]) else w
  }

  function RunAll(c: Config, steps: seq<Step>): World {
    if steps == [] then NEW_WORLD else Apply(c, RunAll(c, steps[..|steps| - 1]), steps[|steps| - 1])
  }

  // ---------------------------------------------------------------- counting

  predicate MayPost(w: Worker, id: string) {
    w.id == id && w.stage.ExecuteStart?
  }

  predicate MayLabel(w: Worker, id: string) {
    w.id == id && (w.stage.RepairStart? || w.stage.Inspecting?)
  }

  function PendingPosts(workers: seq<Worker>, id: string): nat {
    if workers == [] then 0
    else PendingPosts(workers[..|workers| - 1], id) + if MayPost(workers[|workers| - 1], id) then 1 else 0
  }

  function PendingLabels(workers: seq<Worker>, id: string): nat {
    if workers == [] then 0
    else PendingLabels(workers[..|workers| - 1], id) + if MayLabel(workers[|workers| - 1], id) then 1 else 0
  }

  /** How many `createIssue` calls were made for an action. */
  function Posts(trace: seq<Call>, id: string): nat {
    if trace == [] then 0
    else
      var last := trace[|trace| - 1];
      Posts(trace[..|trace| - 1], id) + if last.PostIssue? && last.id == id then 1 else 0
  }

  /** How many `addLabels` calls were made for an action. */
  function LabelWrites(trace: seq<Call>, id: string): nat {
    if trace == [] then 0
    else
      var last := trace[|trace| - 1];
      LabelWrites(trace[..|trace| - 1], id) + if last.WriteLabels? && last.id == id then 1 else 0
  }

  lemma TraceAppend(trace: seq<Call>, calls: seq<Call>, id: string)
    ensures Posts(trace + calls, id) == Posts(trace, id) + Posts(calls, id)
    ensures LabelWrites(trace + calls, id) == LabelWrites(trace, id) + LabelWrites(calls, id)
  {
    if calls == [] {
      assert trace + calls == trace;
    } else {
      TraceAppend(trace, calls[..|calls| - 1], id);
      assert (trace + calls)[..|trace + calls| - 1] == trace + calls[..|calls| - 1];
    }
  }

  lemma WorkersAppend(workers: seq<Worker>, w: Worker, id: string)
    ensures PendingPosts(workers + [w], id) == PendingPosts(workers, id) + if MayPost(w, id) then 1 else 0
    ensures PendingLabels(workers + [w], id) == PendingLabels(workers, id) + if MayLabel(w, id) then 1 else 0
  {
    assert (workers + [w])[..|workers|] == workers;
  }

  lemma WorkersUpdate(workers: seq<Worker>, i: nat, w: Worker, id: string)
    requires i < |workers|
    ensures PendingPosts(workers[i := w], id) + (if MayPost(workers[i], id) then 1 else 0)
         == PendingPosts(workers, id) + if MayPost(w, id) then 1 else 0
    ensures PendingLabels(workers[i := w], id) + (if MayLabel(workers[i], id) then 1 else 0)
         == PendingLabels(workers, id) + if MayLabel(w, id) then 1 else 0
  {
    var n := |workers| - 1;
    if i == n {
      assert workers[i := w][..n] == workers[..n];
    } else {
      WorkersUpdate(workers[..n], i, w, id);
      assert workers[i := w][..n] == workers[..n][i := w];
    }
  }

  // ---------------------------------------------------------------- what one reaction can do

  ghost predicate Validated(c: Config, id: string, p: Params, call: Call) {
    && call.Read? && call.id == id && call.issue.Some?
    && FullyApplied(c.lower, call.issue.value, Expected(id, p.repo, p.title, p.body, p.labels))
  }

  function Target(op: Op): Option<Status> {
    match op
    case OpRecordExecution(_, _, input, _) => Some(input.target)
    case OpRecordReconcile(_, _, input, _) => Some(input.target)
    case OpRecordRepair(_, _, input, _) => Some(input.target)
    case _ => None
  }

  /**
   * A reaction makes at most one ledger call, on its own action and with a fitting phase; it
   * may record success only next to a read that validates; it posts only when it starts an
   * execution and writes labels only when it leaves the inspection of a repair.
   */
  ghost predicate Tame(c: Config, w: Worker, r: Reaction) {
    && |r.ops| <= 1
    && (forall op :: op in r.ops ==> Fits(op) && !op.OpClaimRepair? && Target(op).Some? && op.id == w.id)
    && (forall op :: op in r.ops && Target(op) == Some(Succeeded) ==>
          exists call :: call in r.calls && Validated(c, w.id, w.action.params, call))
    && (forall id :: Posts(r.calls, id) + (if MayPost(w.(stage := r.stage), id) then 1 else 0)
                       <= if MayPost(w, id) then 1 else 0)
    && (forall id :: LabelWrites(r.calls, id) + (if MayLabel(w.(stage := r.stage), id) then 1 else 0)
                       <= if MayLabel(w, id) then 1 else 0)
  }

  lemma ReadIsNoWrite(id: string, issue: Option<Issue>, k: string)
    ensures Posts([Read(id, issue)], k) == 0 && LabelWrites([Read(id, issue)], k) == 0
  {
    assert [Read(id, issue)][..0] == [];
  }

  lemma EndExecutionIsTame(c: Config, w: Worker, result: ExecutionResult, calls: seq<Call>, now: int)
    requires Fits(OpRecordExecution(w.id, w.attempt, result, now))
    requires calls == [] || exists issue :: calls == [Read(w.id, issue)]
    requires result.target == Succeeded ==> exists call :: call in calls && Validated(c, w.id, w.action.params, call)
    ensures Tame(c, w, EndExecution(w, result, calls, now))
  {
    if calls != [] {
      var issue :| calls == [Read(w.id, issue)];
      forall id { ReadIsNoWrite(w.id, issue, id); }
    }
  }

  lemma PersistIsTame(c: Config, s: Ledger, w: Worker, result: ReconcileResult, calls: seq<Call>, now: int)
    requires Fits(OpRecordReconcile(w.id, w.attempt, result, now))
    requires calls == [] || exists issue :: calls == [Read(w.id, issue)]
    requires result.target == Succeeded ==> exists call :: call in calls && Validated(c, w.id, w.action.params, call)
    ensures Tame(c, w, Persist(s, w, result, calls, now))
  {
    if calls != [] {
      var issue :| calls == [Read(w.id, issue)];
      forall id { ReadIsNoWrite(w.id, issue, id); }
    }
  }

  lemma EndRepairIsTame(c: Config, s: Ledger, w: Worker, result: RepairResult, calls: seq<Call>, now: int)
    requires Fits(OpRecordRepair(w.id, w.attempt, result, now))
    requires calls == [] || exists issue :: calls == [Read(w.id, issue)]
    requires result.target == Succeeded ==> exists call :: call in calls && Validated(c, w.id, w.action.params, call)
    ensures Tame(c, w, EndRepair(s, w, result, calls, now))
  {
    if calls != [] {
      var issue :| calls == [Read(w.id, issue)];
      forall id { ReadIsNoWrite(w.id, issue, id); }
    }
  }

  lemma {:induction false} AllMatch(lower: string -> string, e: Expected, fetched: seq<Option<Issue>>)
    ensures |MatchesIn(lower, e, fetched)| == |fetched| <==>
      forall k :: 0 <= k < |fetched| ==> Matches(lower, e, fetched[k])
  {
    if fetched != [] {
      var n := |fetched| - 1;
      AllMatch(lower, e, fetched[..n]);
      assert forall k :: 0 <= k < n ==> fetched[..n][k] == fetched[k];
    }
  }

  lemma {:induction false} SomeMatch(lower: string -> string, e: Expected, fetched: seq<Option<Issue>>)
    ensures |MatchesIn(lower, e, fetched)| >= 1 <==>
      exists k :: 0 <= k < |fetched| && Matches(lower, e, fetched[k])
  {
    if fetched != [] {
      var n := |fetched| - 1;
      SomeMatch(lower, e, fetched[..n]);
      if |MatchesIn(lower, e, fetched[..n])| >= 1 {
        var k :| 0 <= k < n && Matches(lower, e, fetched[..n][k]);
        assert Matches(lower, e, fetched[k]);
      } else {
        assert forall k :: 0 <= k < n ==> fetched[..n][k] == fetched[k];
      }
    }
  }

  lemma {:induction false} TwoMatches(lower: string -> string, e: Expected, fetched: seq<Option<Issue>>, j: nat, k: nat)
    requires j < k < |fetched| && Matches(lower, e, fetched[j]) && Matches(lower, e, fetched[k])
    ensures |MatchesIn(lower, e, fetched)| >= 2
  {
    var n := |fetched| - 1;
    if k < n {
      TwoMatches(lower, e, fetched[..n], j, k);
    } else {
      assert fetched[..n][j] == fetched[j];
      SomeMatch(lower, e, fetched[..n]);
    }
  }

  lemma {:induction false} MatchPositions(lower: string -> string, e: Expected, fetched: seq<Option<Issue>>)
    returns (j: nat, k: nat)
    requires |MatchesIn(lower, e, fetched)| >= 2
    ensures j < k < |fetched| && Matches(lower, e, fetched[j]) && Matches(lower, e, fetched[k])
  {
    var n := |fetched| - 1;
    if |MatchesIn(lower, e, fetched[..n])| >= 2 {
      j, k := MatchPositions(lower, e, fetched[..n]);
    } else {
      SomeMatch(lower, e, fetched[..n]);
      j :| 0 <= j < n && Matches(lower, e, fetched[..n][j]);
      k := n;
    }
  }

  /**
   * Adoption is exact: an issue is adopted only when the search found one candidate and that
   * candidate validates; two valid candidates are a conflict; everything else stays unknown.
   */
  lemma DecisionIsExact(lower: string -> string, e: Expected, fetched: seq<Option<Issue>>)
    ensures Decide(lower, e, fetched).Adopt? <==> |fetched| == 1 && Matches(lower, e, fetched[0])
    ensures Decide(lower, e, fetched).Adopt? ==> Decide(lower, e, fetched).issue == fetched[0].value
    ensures Decide(lower, e, fetched).TooMany? <==>
      exists j, k :: 0 <= j < k < |fetched| && Matches(lower, e, fetched[j]) && Matches(lower, e, fetched[k])
  {
    AllMatch(lower, e, fetched);
    if |fetched| == 1 {
      assert MatchesIn(lower, e, fetched[..0]) == [];
    }
    if |MatchesIn(lower, e, fetched)| >= 2 {
      var j, k := MatchPositions(lower, e, fetched);
    }
    if j, k :| 0 <= j < k < |fetched| && Matches(lower, e, fetched[j]) && Matches(lower, e, fetched[k]) {
      TwoMatches(lower, e, fetched, j, k);
    }
  }

  /**
   * What a reconcile adopts, it can act on later: unless the identity is taken, the row gets the
   * identity of the one issue that validated, ends as that issue deserves, and points a later
   * repair at it.
   */
  lemma AdoptionIsLocatable(c: Config, s: Ledger, w: Worker, fetched: seq<Option<Issue>>, now: int)
    requires Holds(s, w.id, Reconciling, w.attempt) && Decide(c.lower, ExpectedOf(w), fetched).Adopt?
    ensures var d := Decide(c.lower, ExpectedOf(w), fetched);
      var s' := RecordReconcile(s, w.id, w.attempt, DecisionResult(c, ExpectedOf(w), d, now), now).0;
      !Collides(s, w.id, Set(d.issue.nodeId)) ==>
        && w.id in s'.rows && s'.rows[w.id].nodeId.Some? && s'.rows[w.id].nodeId == d.issue.nodeId
        && s'.rows[w.id].status
             == (if FullyApplied(c.lower, d.issue, ExpectedOf(w)) then Succeeded else PartiallyApplied)
        && LocatorOf(s'.rows[w.id]).Some? && Whole(LocatorOf(s'.rows[w.id]).value.number) == d.issue.number
  {
    DecisionIsExact(c.lower, ExpectedOf(w), fetched);
    ReadbackIsExact(c.lower, fetched[0], ExpectedOf(w));
  }

  /** A create that is recorded points later readbacks and repairs at the created issue. */
  lemma DispatchIsLocatable(c: Config, s: Ledger, w: Worker, value: Option<Value>, error: string, now: int)
    requires Holds(s, w.id, Executing, w.attempt)
    requires AfterCreate(c, s, w, value, error, now).stage.ReadingBack?
    ensures var issue := AfterCreate(c, s, w, value, error, now).stage.created;
      var s' := PerformAll(s, AfterCreate(c, s, w, value, error, now).ops);
      && Holds(s', w.id, Executing, w.attempt)
      && s'.rows[w.id].nodeId.Some? && s'.rows[w.id].nodeId == issue.nodeId
      && LocatorOf(s'.rows[w.id]).Some? && Whole(LocatorOf(s'.rows[w.id]).value.number) == issue.number
  {
    var op := AfterCreate(c, s, w, value, error, now).ops[0];
    OneCall(s, op);
  }

  // ---------------------------------------------------------------- every stretch is tame

  lemma ValidatedRead(c: Config, w: Worker, issue: Option<Issue>)
    requires ValidateReadback(c.lower, issue, ExpectedOf(w)).FullReadbackValid?
    ensures Validated(c, w.id, w.action.params, Read(w.id, issue))
  {
    ReadbackIsExact(c.lower, issue, ExpectedOf(w));
  }

  /** A stretch that does nothing. */
  lemma IdleIsTame(c: Config, w: Worker)
    ensures Tame(c, w, Reaction([], [], w.stage))
  {
  }

  lemma StartExecuteIsTame(c: Config, s: Ledger, w: Worker)
    requires w.stage.ExecuteStart?
    ensures Tame(c, w, StartExecute(s, w))
  {
    var p := w.action.params;
    var post := PostIssue(w.id, p.repo, p.title, BuildOutgoingBody(p.body, w.id), p.labels);
    assert [post][..0] == [];
  }

  lemma StartRepairIsTame(c: Config, s: Ledger, w: Worker, now: int)
    requires w.stage.RepairStart?
    ensures Tame(c, w, StartRepair(c, s, w, now))
  {
    if Holds(s, w.id, Repairing, w.attempt) && LocatorOf(w.action).None? {
      EndRepairIsTame(c, s, w, UnknownRepair(c, w, Keep, Keep, "invalid_external_identity"), [], now);
    }
  }

  lemma BeginIsTame(c: Config, s: Ledger, w: Worker, now: int)
    ensures Tame(c, w, Begin(c, s, w, now))
  {
    match w.stage
    case ExecuteStart => StartExecuteIsTame(c, s, w);
    case RepairStart => StartRepairIsTame(c, s, w, now);
    case ReconcileStart =>
    case _ => IdleIsTame(c, w);
  }

  lemma CreateIsTame(c: Config, s: Ledger, w: Worker, value: Option<Value>, error: string, now: int)
    requires w.stage.Creating?
    ensures Tame(c, w, AfterCreate(c, s, w, value, error, now))
  {
    match ClassifyCreateOutcome(value)
    case PermanentNoEffect => EndExecutionIsTame(c, w, FailedResult(error, false), [], now);
    case Throttled => EndExecutionIsTame(c, w, FailedResult(error, true), [], now);
    case Ambiguous => EndExecutionIsTame(c, w, UnknownResult(c, error, ExecutionEnded(Unknown), now), [], now);
    case TransportOk(issue) =>
      if !HasValidExternalIdentity(issue) {
        EndExecutionIsTame(c, w, UnknownResult(c, MALFORMED_CREATE, ExecutionEnded(Unknown), now), [], now);
      }
  }

  lemma ReadbackIsTame(c: Config, w: Worker, reply: Reply, now: int)
    requires w.stage.ReadingBack? && (reply.GetReply? || reply.Fault?)
    ensures Tame(c, w, AfterReadback(c, w, reply, now))
  {
    match reply
    case Fault(error) => EndExecutionIsTame(c, w, UnknownResult(c, error, ReadbackUnknown, now), [], now);
    case GetReply(issue) =>
      if !HasValidExternalIdentity(issue) {
        EndExecutionIsTame(c, w, UnknownResult(c, MALFORMED_GET, ReadbackUnknown, now), [Read(w.id, issue)], now);
      } else {
        var v := ValidateReadback(c.lower, issue, ExpectedOf(w));
        if v.FullReadbackValid? { ValidatedRead(c, w, issue); }
        EndExecutionIsTame(c, w, VerdictResult(issue, v), [Read(w.id, issue)], now);
      }
  }

  lemma SearchIsTame(c: Config, s: Ledger, w: Worker, reply: Reply, now: int)
    requires w.stage.Searching? && (reply.SearchReply? || reply.Fault?)
    ensures Tame(c, w, AfterSearch(c, s, w, reply, now))
  {
    match reply
    case Fault(_) => PersistIsTame(c, s, w, UnknownReconcile(c, "search_fault", now), [], now);
    case SearchReply(count) =>
      if count == 0 {
        DecisionIsExact(c.lower, ExpectedOf(w), []);
        PersistIsTame(c, s, w, DecisionResult(c, ExpectedOf(w), Decide(c.lower, ExpectedOf(w), []), now), [], now);
      }
  }

  lemma FetchIsTame(c: Config, s: Ledger, w: Worker, reply: Reply, now: int)
    requires w.stage.Fetching? && (reply.GetReply? || reply.Fault?)
    ensures Tame(c, w, AfterFetch(c, s, w, w.stage.count, w.stage.fetched, reply, now))
  {
    match reply
    case Fault(_) => PersistIsTame(c, s, w, UnknownReconcile(c, "candidate_get_fault", now), [], now);
    case GetReply(issue) =>
      var all := w.stage.fetched + [issue];
      if |all| < w.stage.count {
        forall id { ReadIsNoWrite(w.id, issue, id); }
      } else {
        var e := ExpectedOf(w);
        var d := Decide(c.lower, e, all);
        DecisionIsExact(c.lower, e, all);
        if d.Adopt? && ValidateReadback(c.lower, Some(d.issue), e).FullReadbackValid? {
          assert all[0] == issue && issue == Some(d.issue);
          ValidatedRead(c, w, issue);
        }
        PersistIsTame(c, s, w, DecisionResult(c, e, d, now), [Read(w.id, issue)], now);
      }
  }

  lemma InspectIsTame(c: Config, s: Ledger, w: Worker, reply: Reply, now: int)
    requires w.stage.Inspecting? && (reply.GetReply? || reply.Fault?) && LocatorOf(w.action).Some?
    ensures Tame(c, w, AfterInspect(c, s, w, reply, now))
  {
    match reply
    case Fault(error) => EndRepairIsTame(c, s, w, UnknownRepair(c, w, Set(Some(error)), Keep, "ambiguous_repair"), [], now);
    case GetReply(issue) =>
      match ValidateReadback(c.lower, issue, ExpectedOf(w))
      case ReadbackMismatch =>
        EndRepairIsTame(c, s, w, UnknownRepair(c, w, Keep, Set(issue), "readback_mismatch"), [Read(w.id, issue)], now);
      case FullReadbackValid =>
        ValidatedRead(c, w, issue);
        EndRepairIsTame(c, s, w, RepairSucceeded(issue, FullReadbackValid), [Read(w.id, issue)], now);
      case MissingLabels(missing) =>
        var l := LocatorOf(w.action).value;
        var write := WriteLabels(w.id, l.repo, l.number, missing);
        forall id
          ensures Posts([Read(w.id, issue), write], id) == 0
          ensures LabelWrites([Read(w.id, issue), write], id) == if id == w.id then 1 else 0
        {
          ReadIsNoWrite(w.id, issue, id);
          assert [Read(w.id, issue), write][..1] == [Read(w.id, issue)];
        }
  }

  lemma LabelsAreTame(c: Config, s: Ledger, w: Worker, value: Option<Value>, error: string, now: int)
    requires w.stage.Labelling?
    ensures Tame(c, w, AfterLabels(c, s, w, w.stage.initial, value, error, now))
  {
    var initial := w.stage.initial;
    match ClassifyCreateOutcome(value)
    case PermanentNoEffect => EndRepairIsTame(c, s, w, RepairDenied(error, initial), [], now);
    case Throttled => EndRepairIsTame(c, s, w, RetryOrBlock(c, w, "rate_limited", Set(Some(error)), initial), [], now);
    case Ambiguous => EndRepairIsTame(c, s, w, UnknownRepair(c, w, Set(Some(error)), Set(initial), "ambiguous_repair"), [], now);
    case TransportOk(_) =>
  }

  lemma ConfirmIsTame(c: Config, s: Ledger, w: Worker, reply: Reply, now: int)
    requires w.stage.Confirming? && (reply.GetReply? || reply.Fault?)
    ensures Tame(c, w, AfterConfirm(c, s, w, w.stage.initial, reply, now))
  {
    var initial := w.stage.initial;
    match reply
    case Fault(error) =>
      EndRepairIsTame(c, s, w, UnknownRepair(c, w, Set(Some(error)), Set(initial), "ambiguous_repair"), [], now);
    case GetReply(issue) =>
      match ValidateReadback(c.lower, issue, ExpectedOf(w))
      case FullReadbackValid =>
        ValidatedRead(c, w, issue);
        EndRepairIsTame(c, s, w, RepairSucceeded(issue, FullReadbackValid), [Read(w.id, issue)], now);
      case MissingLabels(_) =>
        EndRepairIsTame(c, s, w, RetryOrBlock(c, w, "still_missing_labels", Keep, issue), [Read(w.id, issue)], now);
      case ReadbackMismatch =>
        EndRepairIsTame(c, s, w, UnknownRepair(c, w, Keep, Set(issue), "readback_mismatch"), [Read(w.id, issue)], now);
  }

  lemma ExecutionIsTame(c: Config, s: Ledger, w: Worker, reply: Reply, now: int)
    requires w.stage.Creating? || w.stage.ReadingBack?
    ensures Tame(c, w, React(c, s, w, reply, now))
  {
    match (w.stage, reply)
    case (Creating, WriteReply(value, error)) => CreateIsTame(c, s, w, value, error, now);
    case (ReadingBack(_), GetReply(_)) => ReadbackIsTame(c, w, reply, now);
    case (ReadingBack(_), Fault(_)) => ReadbackIsTame(c, w, reply, now);
    case _ =>
  }

  lemma ReconcileIsTame(c: Config, s: Ledger, w: Worker, reply: Reply, now: int)
    requires w.stage.Searching? || w.stage.Fetching?
    ensures Tame(c, w, React(c, s, w, reply, now))
  {
    match (w.stage, reply)
    case (Searching, SearchReply(_)) => SearchIsTame(c, s, w, reply, now);
    case (Searching, Fault(_)) => SearchIsTame(c, s, w, reply, now);
    case (Fetching(_, _), GetReply(_)) => FetchIsTame(c, s, w, reply, now);
    case (Fetching(_, _), Fault(_)) => FetchIsTame(c, s, w, reply, now);
    case _ =>
  }

  lemma RepairIsTame(c: Config, s: Ledger, w: Worker, reply: Reply, now: int)
    requires w.stage.Inspecting? || w.stage.Labelling? || w.stage.Confirming?
    ensures Tame(c, w, React(c, s, w, reply, now))
  {
    match (w.stage, reply)
    case (Inspecting, GetReply(_)) => if LocatorOf(w.action).Some? { InspectIsTame(c, s, w, reply, now); }
    case (Inspecting, Fault(_)) => if LocatorOf(w.action).Some? { InspectIsTame(c, s, w, reply, now); }
    case (Labelling(_), WriteReply(value, error)) => LabelsAreTame(c, s, w, value, error, now);
    case (Confirming(_), GetReply(_)) => ConfirmIsTame(c, s, w, reply, now);
    case (Confirming(_), Fault(_)) => ConfirmIsTame(c, s, w, reply, now);
    case _ =>
  }

  lemma ReactIsTame(c: Config, s: Ledger, w: Worker, reply: Reply, now: int)
    ensures Tame(c, w, React(c, s, w, reply, now))
  {
    if w.stage.Creating? || w.stage.ReadingBack? {
      ExecutionIsTame(c, s, w, reply, now);
    } else if w.stage.Searching? || w.stage.Fetching? {
      ReconcileIsTame(c, s, w, reply, now);
    } else if w.stage.Inspecting? || w.stage.Labelling? || w.stage.Confirming? {
      RepairIsTame(c, s, w, reply, now);
    } else {
      IdleIsTame(c, w);
    }
  }

  // ---------------------------------------------------------------- the invariant

  ghost predicate WorkersOk(w: World) {
    forall worker :: worker in w.workers ==>
      && worker.id in w.ledger.rows
      && worker.action.params == w.ledger.rows[worker.id].params
  }

  function ExecutionBudget(s: Ledger, id: string): nat {
    if id in s.rows then Project(s.rows[id]).executionClaims else 0
  }

  function RepairBudget(s: Ledger, id: string): nat {
    if id in s.rows then s.rows[id].repairAttempts else 0
  }

  ghost predicate WithinBudgets(w: World) {
    forall id ::
      && Posts(w.trace, id) + PendingPosts(w.workers, id) <= ExecutionBudget(w.ledger, id)
      && LabelWrites(w.trace, id) + PendingLabels(w.workers, id) <= RepairBudget(w.ledger, id)
  }

  ghost predicate SuccessHasEvidence(c: Config, w: World) {
    forall id :: id in w.ledger.rows && w.ledger.rows[id].status == Succeeded ==>
      exists call :: call in w.trace && Validated(c, id, w.ledger.rows[id].params, call)
  }

  ghost predicate WorldOk(c: Config, w: World) {
    && Sound(w.ledger, c.maxRepair)
    && WorkersOk(w)
    && WithinBudgets(w)
    && SuccessHasEvidence(c, w)
  }

  /** A call keeps existing rows, their intents and their claim counts. */
  lemma CallGrows(s: Ledger, op: Op, max: nat, id: string)
    requires Sound(s, max) && Fits(op) && id in s.rows
    ensures id in Perform(s, op).rows && SameIntent(s.rows[id], Perform(s, op).rows[id])
    ensures ExecutionBudget(s, id) <= ExecutionBudget(Perform(s, op), id)
    ensures RepairBudget(s, id) <= RepairBudget(Perform(s, op), id)
  {
    OneCallOneEvent(s, op, max, id);
    DeltaGrows(s, Perform(s, op), id);
  }

  lemma DeltaGrows(s: Ledger, s': Ledger, id: string)
    requires id in s.rows && Delta(s, s', id)
    ensures id in s'.rows && SameIntent(s.rows[id], s'.rows[id])
    ensures ExecutionBudget(s, id) <= ExecutionBudget(s', id)
    ensures RepairBudget(s, id) <= RepairBudget(s', id)
  {
    if s'.rows[id] != s.rows[id] {
      var e :| Own(s'.events, id) == Own(s.events, id) + [e] && !Stale(e.phase) && Moves(s.rows[id], s'.rows[id], e);
      ObserveCounts(Project(s.rows[id]), e);
    }
  }

  ghost predicate NewSuccess(s: Ledger, s': Ledger, id: string) {
    id in s'.rows && s'.rows[id].status == Succeeded && (id in s.rows ==> s.rows[id].status != Succeeded)
  }

  lemma BatchesNeverSucceed(s: Ledger, ttl: nat, now: int, id: string)
    requires TableOk(s)
    ensures !NewSuccess(s, ExpireStaleApprovals(s, now).0, id)
    ensures !NewSuccess(s, RecoverOrphans(s, ttl, now).0, id)
  {
    ExpireAllAddsNoRow(s, s.order, now);
    RecoverAllAddsNoRow(s, s.order, ttl, now);
    if id in s.rows {
      ExpireAllDelta(s, s.order, now, id);
      RecoverAllDelta(s, s.order, ttl, now, id);
    }
  }

  /** Calls other than records never make a row succeed. */
  lemma OthersNeverSucceed(s: Ledger, op: Op, id: string)
    requires TableOk(s) && Target(op).None?
    ensures !NewSuccess(s, Perform(s, op), id)
  {
    match op
    case OpDeclare(task, slot, params, hash, reissues, newId, now) =>
    case OpApprove(k, request, now) =>
    case OpExpire(now) => BatchesNeverSucceed(s, 0, now, id);
    case OpClaimExecution(k, now) =>
    case OpClaimReconcile(k, now) =>
    case OpClaimRepair(k, now, limit) =>
    case OpRecover(ttl, now) => BatchesNeverSucceed(s, ttl, now, id);
  }

  /** Only a record aimed at success, on that very action, makes a row succeed. */
  lemma SuccessNeedsRecord(s: Ledger, op: Op, id: string)
    requires Target(op).Some? && NewSuccess(s, Perform(s, op), id)
    ensures Target(op) == Some(Succeeded) && op.id == id
  {
  }

  // ---------------------------------------------------------------- every step keeps it

  lemma CallKeepsSound(s: Ledger, op: Op, max: nat)
    requires Sound(s, max) && Fits(op) && WithinBudget(op, max)
    ensures Sound(Perform(s, op), max)
    ensures forall id :: id in s.rows ==> id in Perform(s, op).rows && Perform(s, op).rows[id].params == s.rows[id].params
    ensures forall id :: ExecutionBudget(s, id) <= ExecutionBudget(Perform(s, op), id)
    ensures forall id :: RepairBudget(s, id) <= RepairBudget(Perform(s, op), id)
  {
    PerformKeepsCore(s, op, max);
    PerformKeepsRecorded(s, op, max);
    forall id | id in s.rows
      ensures id in Perform(s, op).rows && Perform(s, op).rows[id].params == s.rows[id].params
      ensures ExecutionBudget(s, id) <= ExecutionBudget(Perform(s, op), id)
      ensures RepairBudget(s, id) <= RepairBudget(Perform(s, op), id)
    {
      CallGrows(s, op, max, id);
    }
  }

  lemma ForeignKeepsWorld(c: Config, w: World, op: Op)
    requires WorldOk(c, w) && Target(op).None? && WithinBudget(op, c.maxRepair)
    ensures WorldOk(c, w.(ledger := Perform(w.ledger, op)))
  {
    var w' := w.(ledger := Perform(w.ledger, op));
    CallKeepsSound(w.ledger, op, c.maxRepair);
    forall id | id in w'.ledger.rows && w'.ledger.rows[id].status == Succeeded
      ensures exists call :: call in w'.trace && Validated(c, id, w'.ledger.rows[id].params, call)
    {
      OthersNeverSucceed(w.ledger, op, id);
    }
  }

  /** A claim pays for the one operation it starts. */
  lemma SpawnKeepsWorld(c: Config, w: World, s: Ledger, worker: Worker)
    requires WorldOk(c, w.(ledger := s))
    requires worker.id in s.rows && worker.action.params == s.rows[worker.id].params
    requires worker.stage.ExecuteStart? ==>
      Posts(w.trace, worker.id) + PendingPosts(w.workers, worker.id) < ExecutionBudget(s, worker.id)
    requires worker.stage.RepairStart? || worker.stage.Inspecting? ==>
      LabelWrites(w.trace, worker.id) + PendingLabels(w.workers, worker.id) < RepairBudget(s, worker.id)
    ensures WorldOk(c, w.(ledger := s, workers := w.workers + [worker]))
  {
    var w' := w.(ledger := s, workers := w.workers + [worker]);
    forall id
      ensures Posts(w'.trace, id) + PendingPosts(w'.workers, id) <= ExecutionBudget(s, id)
      ensures LabelWrites(w'.trace, id) + PendingLabels(w'.workers, id) <= RepairBudget(s, id)
    {
      WorkersAppend(w.workers, worker, id);
      assert WithinBudgets(w.(ledger := s));
    }
    assert WorkersOk(w');
  }

  /** A won claim keeps the world if it pays for the operation it starts. */
  lemma SpawnedIsOk(c: Config, w: World, s: Ledger, id: string, claim: Option<nat>, now: int, stage: Stage)
    requires WorldOk(c, w.(ledger := s))
    requires claim.Some? && stage.ExecuteStart? ==>
      Posts(w.trace, id) + PendingPosts(w.workers, id) < ExecutionBudget(s, id)
    requires claim.Some? && stage.RepairStart? ==>
      LabelWrites(w.trace, id) + PendingLabels(w.workers, id) < RepairBudget(s, id)
    requires stage.ExecuteStart? || stage.ReconcileStart? || stage.RepairStart?
    ensures WorldOk(c, Spawned(w, s, id, claim, now, stage))
  {
    if claim.Some? && id in s.rows {
      SpawnKeepsWorld(c, w, s, Started(s, id, claim.value, now, stage));
    }
  }

  lemma SpawnExecuteKeepsWorld(c: Config, w: World, id: string, now: int)
    requires WorldOk(c, w)
    ensures WorldOk(c, Apply(c, w, SpawnExecute(id, now)))
  {
    ForeignKeepsWorld(c, w, OpClaimExecution(id, now));
    ExecutionClaimIsCall(w.ledger, id, now);
    ExecutionSpawnIsOk(c, w, id, now, ClaimExecution(w.ledger, id, now).0);
  }

  lemma ExecutionSpawnIsOk(c: Config, w: World, id: string, now: int, s: Ledger)
    requires WithinBudgets(w) && WorldOk(c, w.(ledger := s))
    requires s == ClaimExecution(w.ledger, id, now).0
    ensures WorldOk(c, Spawned(w, s, id, ClaimExecution(w.ledger, id, now).1, now, ExecuteStart))
  {
    var claim := ClaimExecution(w.ledger, id, now).1;
    if claim.Some? {
      ExecutionClaimHasRoom(w, id, now);
    }
    SpawnedIsOk(c, w, s, id, claim, now, ExecuteStart);
  }

  lemma ExecutionClaimHasRoom(w: World, id: string, now: int)
    requires WithinBudgets(w) && ClaimExecution(w.ledger, id, now).1.Some?
    ensures Posts(w.trace, id) + PendingPosts(w.workers, id) < ExecutionBudget(ClaimExecution(w.ledger, id, now).0, id)
  {
    assert ExecutionBudget(w.ledger, id) == 0;
    assert ExecutionBudget(ClaimExecution(w.ledger, id, now).0, id) == 1;
  }

  lemma ExecutionClaimIsCall(s: Ledger, id: string, now: int)
    ensures Perform(s, OpClaimExecution(id, now)) == ClaimExecution(s, id, now).0
  {
  }

  lemma ReconcileClaimIsCall(s: Ledger, id: string, now: int)
    ensures Perform(s, OpClaimReconcile(id, now)) == ClaimReconcile(s, id, now).0
  {
  }

  lemma RepairClaimIsCall(s: Ledger, id: string, now: int, max: nat)
    ensures Perform(s, OpClaimRepair(id, now, max)) == ClaimRepair(s, id, now, max).0
  {
  }

  lemma SpawnReconcileKeepsWorld(c: Config, w: World, id: string, now: int)
    requires WorldOk(c, w)
    ensures WorldOk(c, Apply(c, w, SpawnReconcile(id, now)))
  {
    ForeignKeepsWorld(c, w, OpClaimReconcile(id, now));
    ReconcileClaimIsCall(w.ledger, id, now);
    var (s, claim) := ClaimReconcile(w.ledger, id, now);
    SpawnedIsOk(c, w, s, id, claim, now, ReconcileStart);
  }

  lemma RepairClaimPays(s: Ledger, id: string, now: int, max: nat)
    requires ClaimRepair(s, id, now, max).1.Claimed?
    ensures RepairBudget(ClaimRepair(s, id, now, max).0, id) == RepairBudget(s, id) + 1
  {
  }

  lemma LabelsWithinBudget(w: World, id: string)
    requires WithinBudgets(w)
    ensures LabelWrites(w.trace, id) + PendingLabels(w.workers, id) <= RepairBudget(w.ledger, id)
  {
  }

  lemma RepairClaimHasRoom(w: World, id: string, now: int, max: nat)
    requires WithinBudgets(w) && ClaimRepair(w.ledger, id, now, max).1.Claimed?
    ensures LabelWrites(w.trace, id) + PendingLabels(w.workers, id)
              < RepairBudget(ClaimRepair(w.ledger, id, now, max).0, id)
  {
    LabelsWithinBudget(w, id);
    RepairClaimPays(w.ledger, id, now, max);
  }

  lemma SpawnRepairKeepsWorld(c: Config, w: World, id: string, now: int)
    requires WorldOk(c, w)
    ensures WorldOk(c, Apply(c, w, SpawnRepair(id, now)))
  {
    ForeignKeepsWorld(c, w, OpClaimRepair(id, now, c.maxRepair));
    RepairClaimIsCall(w.ledger, id, now, c.maxRepair);
    RepairSpawnIsOk(c, w, id, now, ClaimRepair(w.ledger, id, now, c.maxRepair).0);
  }

  lemma RepairSpawnIsOk(c: Config, w: World, id: string, now: int, s: Ledger)
    requires WithinBudgets(w) && WorldOk(c, w.(ledger := s))
    requires s == ClaimRepair(w.ledger, id, now, c.maxRepair).0
    ensures WorldOk(c, Spawned(w, s, id, Won(ClaimRepair(w.ledger, id, now, c.maxRepair).1), now, RepairStart))
  {
    var claim := ClaimRepair(w.ledger, id, now, c.maxRepair).1;
    if claim.Claimed? {
      RepairClaimHasRoom(w, id, now, c.maxRepair);
    }
    SpawnedIsOk(c, w, s, id, Won(claim), now, RepairStart);
  }

  /** The writes made and pending after a reaction lands do not exceed those before. */
  lemma LandKeepsWrites(c: Config, w: World, i: nat, worker: Worker, r: Reaction, id: string)
    requires i < |w.workers| && worker.id == w.workers[i].id && worker.stage == w.workers[i].stage
    requires Tame(c, worker, r)
    ensures var w' := Land(w, i, worker, r);
      && Posts(w'.trace, id) + PendingPosts(w'.workers, id) <= Posts(w.trace, id) + PendingPosts(w.workers, id)
      && LabelWrites(w'.trace, id) + PendingLabels(w'.workers, id) <= LabelWrites(w.trace, id) + PendingLabels(w.workers, id)
  {
    TraceAppend(w.trace, r.calls, id);
    WorkersUpdate(w.workers, i, worker.(stage := r.stage), id);
  }

  lemma LandKeepsWorkers(c: Config, w: World, i: nat, worker: Worker, r: Reaction)
    requires WorldOk(c, w) && i < |w.workers| && worker.id == w.workers[i].id && worker.action == w.workers[i].action
    requires forall id :: id in w.ledger.rows ==>
      && id in Land(w, i, worker, r).ledger.rows
      && Land(w, i, worker, r).ledger.rows[id].params == w.ledger.rows[id].params
    ensures WorkersOk(Land(w, i, worker, r))
  {
    var w' := Land(w, i, worker, r);
    assert w.workers[i] in w.workers;
    forall x | x in w'.workers
      ensures x.id in w'.ledger.rows && x.action.params == w'.ledger.rows[x.id].params
    {
      if x != worker.(stage := r.stage) { assert x in w.workers; }
    }
  }

  /** Landing a tame reaction keeps the invariant. */
  lemma LandKeepsWorld(c: Config, w: World, i: nat, worker: Worker, r: Reaction)
    requires WorldOk(c, w) && i < |w.workers|
    requires worker.id == w.workers[i].id && worker.action == w.workers[i].action && worker.stage == w.workers[i].stage
    requires Tame(c, worker, r)
    ensures WorldOk(c, Land(w, i, worker, r))
  {
    LandKeepsLedger(c, w, i, worker, r);
    LandKeepsEvidence(c, w, i, worker, r);
    LandKeepsWorkers(c, w, i, worker, r);
    forall id { LandKeepsWrites(c, w, i, worker, r, id); }
  }

  lemma LandKeepsLedger(c: Config, w: World, i: nat, worker: Worker, r: Reaction)
    requires WorldOk(c, w) && i < |w.workers|
    requires worker.id == w.workers[i].id && worker.action == w.workers[i].action
    requires Tame(c, worker, r)
    ensures Sound(Land(w, i, worker, r).ledger, c.maxRepair)
    ensures forall id :: id in w.ledger.rows ==>
      && id in Land(w, i, worker, r).ledger.rows
      && Land(w, i, worker, r).ledger.rows[id].params == w.ledger.rows[id].params
    ensures forall id :: ExecutionBudget(w.ledger, id) <= ExecutionBudget(Land(w, i, worker, r).ledger, id)
    ensures forall id :: RepairBudget(w.ledger, id) <= RepairBudget(Land(w, i, worker, r).ledger, id)
  {
    if r.ops != [] {
      assert r.ops == [r.ops[0]];
      OneCall(w.ledger, r.ops[0]);
      CallKeepsSound(w.ledger, r.ops[0], c.maxRepair);
    }
  }

  lemma LandKeepsEvidence(c: Config, w: World, i: nat, worker: Worker, r: Reaction)
    requires WorldOk(c, w) && i < |w.workers|
    requires worker.id == w.workers[i].id && worker.action == w.workers[i].action
    requires Tame(c, worker, r)
    ensures SuccessHasEvidence(c, Land(w, i, worker, r))
  {
    if r.ops != [] {
      var op := r.ops[0];
      assert r.ops == [op];
      OneCall(w.ledger, op);
      var w' := Land(w, i, worker, r);
      forall id | id in w'.ledger.rows && w'.ledger.rows[id].status == Succeeded
        ensures exists call :: call in w'.trace && Validated(c, id, w'.ledger.rows[id].params, call)
      {
        LandedSuccessHasEvidence(c, w, i, worker, r, op, id);
      }
    }
  }

  lemma LandedSuccessHasEvidence(c: Config, w: World, i: nat, worker: Worker, r: Reaction, op: Op, id: string)
    requires WorldOk(c, w) && i < |w.workers|
    requires worker.id == w.workers[i].id && worker.action == w.workers[i].action
    requires Tame(c, worker, r) && op in r.ops
    requires id in Perform(w.ledger, op).rows && Perform(w.ledger, op).rows[id].status == Succeeded
    ensures exists call :: call in w.trace + r.calls && Validated(c, id, Perform(w.ledger, op).rows[id].params, call)
  {
    if NewSuccess(w.ledger, Perform(w.ledger, op), id) {
      SuccessNeedsRecord(w.ledger, op, id);
      assert w.workers[i] in w.workers;
      CallGrows(w.ledger, op, c.maxRepair, worker.id);
      var call :| call in r.calls && Validated(c, worker.id, worker.action.params, call);
      assert call in w.trace + r.calls;
    } else {
      CallGrows(w.ledger, op, c.maxRepair, id);
      var call :| call in w.trace && Validated(c, id, w.ledger.rows[id].params, call);
      assert call in w.trace + r.calls;
    }
  }

  lemma StepKeepsWorld(c: Config, w: World, step: Step)
    requires WorldOk(c, w)
    ensures WorldOk(c, Apply(c, w, step))
  {
    match step
    case External(op) => if Foreign(op) { ForeignKeepsWorld(c, w, op); }
    case SpawnExecute(id, now) => SpawnExecuteKeepsWorld(c, w, id, now);
    case SpawnReconcile(id, now) => SpawnReconcileKeepsWorld(c, w, id, now);
    case SpawnRepair(id, now) => SpawnRepairKeepsWorld(c, w, id, now);
    case Run(i, now) => RunStepKeepsWorld(c, w, i, now);
    case Answer(i, reply, now) => AnswerKeepsWorld(c, w, i, reply, now);
    case Crash(i) => CrashKeepsWorld(c, w, i);
  }

  lemma RunStepKeepsWorld(c: Config, w: World, i: nat, now: int)
    requires WorldOk(c, w)
    ensures WorldOk(c, Apply(c, w, Run(i, now)))
  {
    if i < |w.workers| {
      var worker := Refreshed(w.ledger, w.workers[i]);
      BeginIsTame(c, w.ledger, worker, now);
      LandKeepsWorld(c, w, i, worker, Begin(c, w.ledger, worker, now));
    }
  }

  lemma AnswerKeepsWorld(c: Config, w: World, i: nat, reply: Reply, now: int)
    requires WorldOk(c, w)
    ensures WorldOk(c, Apply(c, w, Answer(i, reply, now)))
  {
    if i < |w.workers| {
      ReactIsTame(c, w.ledger, w.workers[i], reply, now);
      LandKeepsWorld(c, w, i, w.workers[i], React(c, w.ledger, w.workers[i], reply, now));
    }
  }

  lemma CrashKeepsWorld(c: Config, w: World, i: nat)
    requires WorldOk(c, w)
    ensures WorldOk(c, Apply(c, w, Crash(i)))
  {
    if i < |w.workers| {
      CrashIsTame(c, w.workers[i]);
      CrashIsLanding(c, w, i);
      LandKeepsWorld(c, w, i, w.workers[i], Reaction([], [], Finished(Crashed)));
    }
  }

  lemma CrashIsLanding(c: Config, w: World, i: nat)
    requires i < |w.workers|
    ensures Apply(c, w, Crash(i)) == Land(w, i, w.workers[i], Reaction([], [], Finished(Crashed)))
  {
    assert w.trace + [] == w.trace;
  }

  lemma CrashIsTame(c: Config, w: Worker)
    ensures Tame(c, w, Reaction([], [], Finished(Crashed)))
  {
  }

  lemma {:induction false} RunKeepsWorld(c: Config, steps: seq<Step>)
    ensures WorldOk(c, RunAll(c, steps))
  {
    if steps != [] {
      RunKeepsWorld(c, steps[..|steps| - 1]);
      StepKeepsWorld(c, RunAll(c, steps[..|steps| - 1]), steps[|steps| - 1]);
    }
  }

  // ---------------------------------------------------------------- the theorems

  /**
   * At most once: on every run, however workers interleave, crash, lose leases or are
   * re-approved, an action is claimed for execution at most once and at most one
   * `createIssue` is ever issued for it.
   */
  lemma AtMostOneCreate(c: Config, steps: seq<Step>, id: string)
    ensures CountPhase(RunAll(c, steps).ledger.events, id, ExecutionClaimed) <= 1
    ensures Posts(RunAll(c, steps).trace, id) <= CountPhase(RunAll(c, steps).ledger.events, id, ExecutionClaimed)
  {
    RunKeepsWorld(c, steps);
    var s := RunAll(c, steps).ledger;
    ClaimsAreBounded(s, c.maxRepair, id);
    FoldCounts(s.events, id);
  }

  /**
   * Bounded repair: the repair counter is the number of repair claims, it never exceeds the
   * configured maximum, and it bounds the `addLabels` calls over the whole life of the action.
   */
  lemma BoundedLabelWrites(c: Config, steps: seq<Step>, id: string)
    ensures LabelWrites(RunAll(c, steps).trace, id) <= CountPhase(RunAll(c, steps).ledger.events, id, RepairClaimed)
    ensures CountPhase(RunAll(c, steps).ledger.events, id, RepairClaimed) <= c.maxRepair
    ensures id in RunAll(c, steps).ledger.rows ==>
      RunAll(c, steps).ledger.rows[id].repairAttempts == CountPhase(RunAll(c, steps).ledger.events, id, RepairClaimed)
  {
    RunKeepsWorld(c, steps);
    ClaimsAreBounded(RunAll(c, steps).ledger, c.maxRepair, id);
  }

  /** The event log is exact on every run of the action plane. */
  lemma EventLogIsExact(c: Config, steps: seq<Step>, id: string)
    requires id in RunAll(c, steps).ledger.rows
    ensures Fold(Own(RunAll(c, steps).ledger.events, id)) == Project(RunAll(c, steps).ledger.rows[id])
  {
    RunKeepsWorld(c, steps);
  }

  /**
   * Success is sound: an action that ever shows `succeeded` had an issue read back in its
   * repository, open, with its exact title, its exact body and marker, and every label.
   */
  lemma SuccessIsSound(c: Config, steps: seq<Step>, id: string)
    requires id in RunAll(c, steps).ledger.rows && RunAll(c, steps).ledger.rows[id].status == Succeeded
    ensures exists issue, p ::
      && p == RunAll(c, steps).ledger.rows[id].params
      && Read(id, Some(issue)) in RunAll(c, steps).trace
      && FullyApplied(c.lower, issue, Expected(id, p.repo, p.title, p.body, p.labels))
  {
    RunKeepsWorld(c, steps);
    var w := RunAll(c, steps);
    var p := w.ledger.rows[id].params;
    var call :| call in w.trace && Validated(c, id, p, call);
    assert call == Read(id, Some(call.issue.value));
  }

  /** Lease shape, approval shape and the unique keys hold in every reachable state. */
  lemma ReachableTablesAreSound(c: Config, steps: seq<Step>)
    ensures Core(RunAll(c, steps).ledger, c.maxRepair)
  {
    RunKeepsWorld(c, steps);
  }

  // ---------------------------------------------------------------- a run as ledger calls

  lemma {:induction false} CallsCompose(s: Ledger, a: seq<Op>, b: seq<Op>)
    ensures PerformAll(s, a + b) == PerformAll(PerformAll(s, a), b)
  {
    if b == [] {
      assert a + b == a;
    } else {
      CallsCompose(s, a, b[..|b| - 1]);
      assert (a + b)[..|a + b| - 1] == a + b[..|b| - 1];
    }
  }

  /** The ledger call a step makes, if any. */
  function StepCalls(c: Config, w: World, step: Step): seq<Op> {
    match step
    case External(op) => if Foreign(op) then [op] else []
    case SpawnExecute(id, now) => [OpClaimExecution(id, now)]
    case SpawnReconcile(id, now) => [OpClaimReconcile(id, now)]
    case SpawnRepair(id, now) => [OpClaimRepair(id, now, c.maxRepair)]
    case Run(i, now) => if i < |w.workers| then Begin(c, w.ledger, Refreshed(w.ledger, w.workers[i]), now).ops else []
    case Answer(i, reply, now) => if i < |w.workers| then React(c, w.ledger, w.workers[i], reply, now).ops else []
    case Crash(_) => []
  }

  /** Every step of a run is at most one public ledger call, as the broker makes it. */
  lemma StepIsCalls(c: Config, w: World, step: Step)
    ensures |StepCalls(c, w, step)| <= 1
    ensures forall op :: op in StepCalls(c, w, step) ==> Fits(op) && WithinBudget(op, c.maxRepair)
    ensures Apply(c, w, step).ledger == PerformAll(w.ledger, StepCalls(c, w, step))
  {
    match step
    case External(op) => OneCall(w.ledger, op);
    case SpawnExecute(id, now) => OneCall(w.ledger, OpClaimExecution(id, now));
    case SpawnReconcile(id, now) => OneCall(w.ledger, OpClaimReconcile(id, now));
    case SpawnRepair(id, now) => OneCall(w.ledger, OpClaimRepair(id, now, c.maxRepair));
    case Run(i, now) => if i < |w.workers| { BeginIsTame(c, w.ledger, Refreshed(w.ledger, w.workers[i]), now); }
    case Answer(i, reply, now) => if i < |w.workers| { ReactIsTame(c, w.ledger, w.workers[i], reply, now); }
    case Crash(_) =>
  }

  /** The ledger calls of a run, in order. */
  function RunCalls(c: Config, steps: seq<Step>): seq<Op> {
    if steps == [] then []
    else
      var front := steps[..|steps| - 1];
      RunCalls(c, front) + StepCalls(c, RunAll(c, front), steps[|steps| - 1])
  }

  lemma {:induction false} RunIsCalls(c: Config, steps: seq<Step>)
    ensures forall op :: op in RunCalls(c, steps) ==> Fits(op) && WithinBudget(op, c.maxRepair)
    ensures RunAll(c, steps).ledger == PerformAll(EMPTY, RunCalls(c, steps))
  {
    if steps != [] {
      var front, last := steps[..|steps| - 1], steps[|steps| - 1];
      RunIsCalls(c, front);
      StepIsCalls(c, RunAll(c, front), last);
      CallsCompose(EMPTY, RunCalls(c, front), StepCalls(c, RunAll(c, front), last));
    }
  }

  lemma {:induction false} ContinuationIsCalls(c: Config, steps: seq<Step>, more: seq<Step>) returns (ops: seq<Op>)
    ensures forall op :: op in ops ==> Fits(op) && WithinBudget(op, c.maxRepair)
    ensures RunAll(c, steps + more).ledger == PerformAll(RunAll(c, steps).ledger, ops)
  {
    if more == [] {
      ops := [];
      assert steps + more == steps;
    } else {
      var n := |more| - 1;
      var before := ContinuationIsCalls(c, steps, more[..n]);
      StepIsCalls(c, RunAll(c, steps + more[..n]), more[n]);
      var last := StepCalls(c, RunAll(c, steps + more[..n]), more[n]);
      assert (steps + more)[..|steps + more| - 1] == steps + more[..n];
      CallsCompose(RunAll(c, steps).ledger, before, last);
      ops := before + last;
    }
  }

  /** `succeeded`, `failed`, `conflict` and `repair_blocked` are absorbing: the row never changes again. */
  lemma TerminalIsAbsorbing(c: Config, steps: seq<Step>, more: seq<Step>, id: string)
    requires id in RunAll(c, steps).ledger.rows
    requires RunAll(c, steps).ledger.rows[id].status in {Succeeded, Failed, InConflict, RepairBlocked}
    ensures id in RunAll(c, steps + more).ledger.rows
    ensures RunAll(c, steps + more).ledger.rows[id] == RunAll(c, steps).ledger.rows[id]
  {
    RunKeepsWorld(c, steps);
    var ops := ContinuationIsCalls(c, steps, more);
    TerminalRowIsFrozen(RunAll(c, steps).ledger, ops, c.maxRepair, id);
  }

  /** A takeover fences the former holder for the rest of the run: none of its results is ever accepted. */
  lemma TakeoverFencesForever(c: Config, steps: seq<Step>, more: seq<Step>, a: nat, id: string,
                              e: ExecutionResult, r: ReconcileResult, p: RepairResult, now: int)
    requires Lost(RunAll(c, steps).ledger, a)
    ensures RecordExecution(RunAll(c, steps + more).ledger, id, a, e, now).0.rows == RunAll(c, steps + more).ledger.rows
    ensures RecordReconcile(RunAll(c, steps + more).ledger, id, a, r, now).0.rows == RunAll(c, steps + more).ledger.rows
    ensures RecordRepair(RunAll(c, steps + more).ledger, id, a, p, now).0.rows == RunAll(c, steps + more).ledger.rows
  {
    RunKeepsWorld(c, steps);
    var ops := ContinuationIsCalls(c, steps, more);
    LateResultChangesNoRow(RunAll(c, steps).ledger, ops, c.maxRepair, a, id, e, r, p, now);
  }

  /** No issue stands as the readback evidence of two different actions. */
  lemma EvidenceIsExclusive(c: Config, steps: seq<Step>, id1: string, id2: string, issue: Issue)
    requires id1 in RunAll(c, steps).ledger.rows && id2 in RunAll(c, steps).ledger.rows
    requires Validated(c, id1, RunAll(c, steps).ledger.rows[id1].params, Read(id1, Some(issue)))
    requires Validated(c, id2, RunAll(c, steps).ledger.rows[id2].params, Read(id2, Some(issue)))
    ensures id1 == id2
  {
    RunKeepsWorld(c, steps);
    var p1, p2 := RunAll(c, steps).ledger.rows[id1].params, RunAll(c, steps).ledger.rows[id2].params;
    OutgoingBodyIsInjective(p1.body, id1, p2.body, id2);
  }

  /**
   * A colliding adoption: the reconcile that would share an identity ends in conflict without
   * it, and every other row keeps its own; a colliding dispatch record changes nothing at all.
   */
  lemma CollisionKeepsIdentities(s: Ledger, id: string, attempt: nat, e: ExecutionResult, r: ReconcileResult, now: int)
    requires Holds(s, id, Reconciling, attempt) && r.target in RECONCILE_TARGETS && r.target != Unknown
    requires Collides(s, id, r.nodeId)
    ensures RecordReconcile(s, id, attempt, r, now).1 == Ok(true)
    ensures RecordReconcile(s, id, attempt, r, now).0.rows[id].status == InConflict
    ensures RecordReconcile(s, id, attempt, r, now).0.rows[id].nodeId == s.rows[id].nodeId
    ensures RecordReconcile(s, id, attempt, r, now).0.rows[id].externalId == s.rows[id].externalId
    ensures forall k :: k in s.rows && k != id ==>
      k in RecordReconcile(s, id, attempt, r, now).0.rows && RecordReconcile(s, id, attempt, r, now).0.rows[k] == s.rows[k]
    ensures forall k, a :: Holds(s, k, Executing, a) && Collides(s, k, e.nodeId) ==> RecordExecution(s, k, a, e, now).0 == s
  {
  }

  /**
   * On every run, each claim to create an issue or to write labels was made, by the clock of the
   * claim, before the approval of these very parameters ran out; a later expiry or approval
   * cannot change that, because the approval of a claimed action is never touched again.
   */
  lemma EveryWriteClaimWasApproved(c: Config, steps: seq<Step>, e: Event)
    requires e in RunAll(c, steps).ledger.events && WriteClaim(e.phase)
    ensures e.action in RunAll(c, steps).ledger.rows
    ensures var r := RunAll(c, steps).ledger.rows[e.action];
      r.approval.Some? && e.ts < r.approval.value.expiresAt && r.approval.value.hash == r.hash
  {
    RunKeepsWorld(c, steps);
    var s := RunAll(c, steps).ledger;
    RunIsCalls(c, steps);
    RunClaimsLive(RunCalls(c, steps), c.maxRepair);
    var k :| 0 <= k < |s.events| && s.events[k] == e;
    OwnHolds(s.events, k);
    var i :| 0 <= i < |Own(s.events, e.action)| && Own(s.events, e.action)[i] == e;
    assert ClaimedLive(Own(s.events, e.action), s.rows[e.action]);
    assert RowOk(s.rows[e.action]);
  }
}
