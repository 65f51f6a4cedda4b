# Palantir control plane: a verified model

This project models the parts of a control plane for coding agents in which a mistake costs
most, and proves what each of them promises for all inputs or over all runs.

**The external-action protocol** creates a GitHub issue at most once although replies get lost,
workers crash, leases are taken over and approvals run out.

- `LedgerSpec` gives every transaction of the action ledger as a function on a table of rows and
  an event log; `LedgerInvariants` proves the table constraints of the schema as an invariant;
  `LedgerHistory` proves that the event log is an exact record, and that a lost lease stays lost;
  `LedgerAnswers` says of every transaction when it is accepted and what it writes, column by column,
  and of every approval on a run that its caller had reviewed the parameters of the row.
- `ActionLedgerService` is the service itself, a class that updates the row map and the log in
  place, each method proved against its function.
- `ActionReadback` holds the marker, the classification of replies to writes, which replies rule out
  an effect, and the readback check.
- `BrokerSteps` cuts the three asynchronous operations at their awaits. `Protocol` interleaves any
  number of them with operators, crashes and any gateway, and proves the theorems over all runs.
  `BrokerOutcomes` says for every answer of the gateway how the row ends; `ActionRuns` says over all
  runs what was posted, which labels were written, why an action failed and who approved it.
  `Progress` says what gets done when the gateway answers: a lost reply is recovered without a second
  create, and missing labels are added.
- `ActionBroker` is the broker as imperative methods with awaits, loops and the two drives;
  `BrokerRefinement` proves that under every schedule of the other workers and callers such a method
  does what the interleaved run does.
- `CanonicalParams` validates and canonicalizes parameters and proves declaration idempotent.

**Seven smaller cores** each carry one hard property.

- `ArgsTemplate` and `AgentProfiles`: removing an option from a command template commutes with
  tokenizing, so resetting a profile's permission mode takes effect whatever the template says.
- `AutoReview`: the review dispatcher's breaker, in-flight claims and durable marker.
- `ParentNotices`: the notice queue and turn context of a manager, peeked and then committed.
- `ArtifactCheck`: the glob compiler preserves meaning.
- `CompositionLedger`: the composition gate converges and its cleanup is invisible.
- `Migrations`: migrations run once, upward, and never past a changed or late file.
- `AppServerSession`: framing ignores chunking, and each request settles once.

## Reading the results

Asynchronous code is a state machine over its steps: every `await` ends a step, and any other step
may come between. A transaction is one step. Timestamps are integers. A `char` is a Unicode scalar
value, where the original counts UTF-16 code units: the theorems about texts speak of texts without
lone surrogates, and a character outside the basic plane counts as one. The gateway may answer
anything at any time. Hashing, Unicode normalization, lower-casing and JSON parsing are function
parameters, so a theorem holds for every choice of them; where a law is needed (normalization is
idempotent) it is a precondition. Attempt ids come from a counter, which
stands for fresh random ids. Scripts of answers and interfering calls are arguments of the broker's
methods, because the methods cannot see the gateway or the other callers. A review counts as
delivered when handing it to the conversation service does not throw: the service may queue it, and a
rejection after that reaches neither the breaker nor the marker (`server/app.js:487-505`,
`server/services/conversationService.js:354-425`). A query without an order may return its rows in any.

Assumptions of the action protocol: `executeClaimedAction` runs once for each claim it is given, as
its callers do, because a second call with the same live attempt passes its own check
(`server/services/actionBroker.js:338-344`); results name the event phases that the broker names
(freezing, fencing and the kept intents need no such assumption); all repair claims use one maximum.

Seven promises turn out to hold only under a condition. In each case the code is modelled as it is,
a lemma gives the input that breaks the promise, and another gives the exact condition.

- The breaker count equals the sends delivered and scheduled since the last clear, unless a send
  that was scheduled before a clear fails while a later one is on the books:
  `AutoReview.StaleFailureLosesAReservation`, `AutoReview.BreakerConservation`.
- A reviewed goal run is never reviewed again, provided its events can be read: a failing read
  counts as no marker (`AutoReview.UnreadableMarkerSendsTwice`). It is reviewed again exactly when a
  dispatch passes every other guard with the marker unread and its deferred send goes out:
  `AutoReview.MarkedIsSentAgainExactlyWhenUnread`.
- No notice is lost unless the queue of a manager is cleared while one of its turns is open, new
  notices follow, and the turn is then accepted, or the queue is consumed under an open turn:
  `ParentNotices.ClearInsideATurnLosesANotice`, `ParentNotices.NoticesAreConserved`.
- The stored turn context is that of the open turn, or else of the last accepted one, unless it is
  cleared while a turn that set one is open: the accepted turn then leaves none, and a refused turn
  brings back one that was cleared (`ParentNotices.ClearInsideATurnFalsifiesTheContext`,
  `ParentNotices.ContextIsOfLastAcceptedTurn`).
- Framing ignores chunking unless a line before the last one is a bare `null`, whose `id` cannot be
  read: the handler throws and leaves the later lines in the buffer
  (`AppServerSession.FramingIgnoresChunking`).
- The composition last accepted is the one the gate reads, unless another one that was created later
  had been accepted in the same second: `CompositionLedger.AcceptedInTheSameSecondIsNotRead`,
  `CompositionLedger.AcceptedIsRead`.
- The gate settles for the owners that were just composed, in whatever order it reads their rows back.
  This may fail when an owner carries two different provenances, because it is stored under one and
  looked up under the other: for a lone owner, and for owners of distinct type and id without colons,
  it fails exactly then (`CompositionLedger.LoneOwnerConverges`,
  `CompositionLedger.ConvergesExactlyWhenPlain`). It may also fail when names with a colon let two
  owners share a key (`CompositionLedger.CollidingKeysMayNotSettle`): with agreeing provenances it
  fails for some order exactly when two owners share a key and one has a newer revision
  (`CompositionLedger.PlainConvergesExactly`; `CompositionLedger.PlainSettlesInOrder` is exact for one
  order, such as that of the primary key).

## Model

| member | source | states |
|---|---|---|
| ActionReadback.OutgoingBodyIsInjective | server/services/actionReadback.js:7-19 | Two user bodies without the reserved name that give the same outgoing body are the same body for the same action id. |
| ActionReadback.OutgoingBodyText | server/services/actionReadback.js:1-19 | The outgoing body is the user's text, a blank line and the comment that names the action. |
| ActionReadback.ReadbackIsExact | server/services/actionReadback.js:95-130 | A readback is fully valid exactly when repository, state, title, body with marker and every label up to case are as expected; labels are the only shortfall reported as missing. |
| ActionReadback.ReadbackIdentifiesAction | server/services/actionReadback.js:11-19 | One issue cannot be structurally valid for two different actions whose bodies avoid the reserved name. |
| ActionReadback.ClassificationIsExact | server/services/actionReadback.js:33-83 | For every kind, code and status: a write had no effect, was throttled or succeeded exactly when the answer says so by a known kind, or by code or status where no kind overrules; every other answer is ambiguous. |
| ActionReadback.DoubtIsAmbiguous | server/services/actionReadback.js:53-82 | A timeout, a server error, a lost response, a malformed reply, an unknown code and an otherwise unnamed status of 500 or more are ambiguous. |
| LedgerInvariants.PerformKeepsCore | server/db/migrations/085_action_ledger.sql:54-83 | Every public ledger call keeps lease shape, approval shape, one action per task and slot, distinct lease holders and distinct external identities. |
| LedgerHistory.OneCallOneEvent | server/services/actionLedgerService.js:464-478 | Any call gives an existing action at most one event; its row changes only with a non-stale event, as that event says, and never once terminal. |
| LedgerHistory.RunIsSound | server/services/actionLedgerService.js:464-938 | On every run of calls the fold of an action's events is its status, lease and claim counts. |
| LedgerHistory.ClaimsAreBounded | server/services/actionLedgerService.js:603-714 | At most one execution claim per action, and as many repair claims as the counter says, never above the maximum. |
| LedgerHistory.TerminalRowIsFrozen | server/services/actionLedgerService.js:728-938 | No later sequence of calls, whatever event phases they name, writes any column of a terminal row. |
| LedgerHistory.IntentIsKept | server/services/actionLedgerService.js:480-938 | No sequence of calls removes an action or changes its task, slot, parameters, hash or the action it reissues. |
| LedgerHistory.AttemptsAreFresh | server/services/actionLedgerService.js:603-714 | A row's attempt after a call is the one it had or a newly drawn one. |
| LedgerHistory.LostLeaseStaysLost | server/services/actionLedgerService.js:859-889 | An attempt that no row holds is never held again, whatever is called and whatever phases the calls name. |
| LedgerHistory.LateResultChangesNoRow | server/services/actionLedgerService.js:728-778 | A result of a lost attempt, reported after any further calls, changes no row and is not accepted. |
| LedgerHistory.RecoveryIsExact | server/services/actionLedgerService.js:859-889 | Recovery ends exactly the leases aged the given time or more, loses their attempts, and touches no other row. |
| LedgerHistory.RunClaimsLive | server/services/actionLedgerService.js:303-378 | On every run of calls each execution and repair claim was made before the approval that its row still carries ran out. |
| LedgerAnswers.DeclarationIsExact | server/services/actionLedgerService.js:480-527 | When a declaration inserts, answers the action that is there, or is refused with which error; it inserts what was given and otherwise writes nothing. |
| LedgerAnswers.ApprovalIsExact | server/services/actionLedgerService.js:529-586 | An approval is accepted exactly when it is complete, came by cookie, lies ahead and names the hash of a row that awaits one; the row then carries what was reviewed; each other case has its error and changes nothing. |
| LedgerAnswers.ExpiryIsExact | server/services/actionLedgerService.js:716-726 | The pass sends a row back, with one event, exactly when it is queued and its approval does not lie ahead. |
| LedgerAnswers.ExpiryCountIsExact | server/services/actionLedgerService.js:716-726 | It answers the number of rows it sent back. |
| LedgerAnswers.ExecutionClaimIsExact | server/services/actionLedgerService.js:603-629 | An execution claim is won exactly for a queued row whose approval is of its parameters and lies ahead; what it writes. |
| LedgerAnswers.ReconcileClaimIsExact | server/services/actionLedgerService.js:631-653 | A reconcile claim is won exactly for an unknown row whose stored time, if any, has come; what it writes. |
| LedgerAnswers.RepairClaimIsExact | server/services/actionLedgerService.js:655-714 | A repair claim is won exactly for a due row with budget and a running approval; a due row without is blocked, with its reason; any other is left alone. |
| LedgerAnswers.ExecutionRecordIsExact | server/services/actionLedgerService.js:728-778 | A result is written exactly when its attempt holds the row and its identity is free; which columns it writes; stale and colliding results write no row. |
| LedgerAnswers.ReconcileRecordIsExact | server/services/actionLedgerService.js:780-857 | A result is written exactly when its attempt holds the row; one whose identity another action has ends in conflict with the identity columns as they were. |
| LedgerAnswers.ReconcileRecordWrites | server/services/actionLedgerService.js:780-857 | Which status, identity and time a written result leaves. |
| LedgerAnswers.RepairRecordIsExact | server/services/actionLedgerService.js:891-938 | A result is written exactly when its attempt holds the row, with its retry or reconcile time, and never touches the identity. |
| LedgerAnswers.RecoveryWrites | server/services/actionLedgerService.js:859-889 | The pass ends exactly the leases of the given age or more and makes their rows due for reconcile at once. |
| LedgerAnswers.RecoveryCountIsExact | server/services/actionLedgerService.js:859-889 | It answers the number of leases it ended. |
| LedgerAnswers.EveryApprovalWasReviewed | server/services/actionLedgerService.js:553-586 | On every run of calls each logged approval of an action comes from a call that named the hash of the parameters the action still has, by cookie and for a time ahead. |
| LedgerAnswers.StoredApprovalWasGiven | server/services/actionLedgerService.js:553-586 | On every run the approval a row carries is one that a caller gave, as it was given. |
| ActionLedgerService.ActionLedger.DeclareAction | server/services/actionLedgerService.js:480-527 | The whole new table, log and answer of a declaration, including the repeated and the conflicting one. |
| ActionLedgerService.ActionLedger.ApproveAction | server/services/actionLedgerService.js:529-586 | The whole new state and the answer of an approval, which `LedgerAnswers.ApprovalIsExact` characterises case by case. |
| ActionLedgerService.ActionLedger.ExpireApprovals | server/services/actionLedgerService.js:716-726 | Every elapsed queued approval goes back to awaiting approval with one event each. |
| ActionLedgerService.ActionLedger.ClaimForExecution | server/services/actionLedgerService.js:603-629 | A queued row under a live approval is leased to a fresh attempt; an elapsed one is expired instead. |
| ActionLedgerService.ActionLedger.ClaimForReconcile | server/services/actionLedgerService.js:631-653 | A due unknown row is leased; every other row is refused unchanged. |
| ActionLedgerService.ActionLedger.ClaimForRepair | server/services/actionLedgerService.js:655-714 | A repairable row is leased and counted, or blocked when the budget or the approval is used up. |
| ActionLedgerService.ActionLedger.RecordExecutionResult | server/services/actionLedgerService.js:728-778 | A result of the live attempt updates the row, a stale one only logs, a colliding identity changes nothing. |
| ActionLedgerService.ActionLedger.RecordReconcileResult | server/services/actionLedgerService.js:780-857 | A result of the live attempt updates the row; a colliding identity ends in conflict without it. |
| ActionLedgerService.ActionLedger.RecordRepairResult | server/services/actionLedgerService.js:891-938 | A result of the live attempt settles the repair with its retry time; a stale one only logs. |
| ActionLedgerService.ActionLedger.RecoverOrphanedLeases | server/services/actionLedgerService.js:859-889 | All old leases go to unknown in one pass, each with one event, and are counted. |
| Protocol.DecisionIsExact | server/services/actionBroker.js:561-621 | Reconcile adopts an issue exactly when the search gave one candidate and it validates; two valid candidates are a conflict. |
| Protocol.AdoptionIsLocatable | server/services/actionBroker.js:561-621 | An adopted issue's identity is stored, the status is succeeded exactly when it is fully applied, and a later repair can locate it. |
| Protocol.DispatchIsLocatable | server/services/actionBroker.js:403-430 | A recorded create stores the created issue's identity, keeps the lease, and a later repair can locate the issue. |
| Protocol.AtMostOneCreate | server/services/actionBroker.js:337-359 | On every interleaved run at most one execution claim is won and at most one issue creation is sent per action. |
| Protocol.BoundedLabelWrites | server/services/actionBroker.js:184-335 | On every run the repair counter is the number of repair claims, at most the maximum, and bounds the label writes sent. |
| Protocol.EventLogIsExact | server/services/actionBroker.js:239-250 | On every interleaved run folding an action's events gives exactly its row's status, lease and counts. |
| Protocol.SuccessIsSound | server/services/actionBroker.js:467-485 | An action that shows succeeded had an open issue read back in its repository with exact title, exact body and all labels. |
| Protocol.ReachableTablesAreSound | server/db/migrations/086_action_reconcile_check.sql:104-106 | The table constraints, the unique external identity included, hold in every reachable state. |
| Protocol.StepIsCalls | server/services/actionBroker.js:184-486 | Between two awaits the broker makes at most one ledger call, with the phase that fits its result. |
| Protocol.TerminalIsAbsorbing | server/services/actionLedgerService.js:728-938 | Succeeded, failed, conflict and repair blocked are never left, on any continuation of any run. |
| Protocol.TakeoverFencesForever | server/services/actionLedgerService.js:379-457 | Once an attempt lost its lease no result of it changes a row, on any continuation of any run. |
| Protocol.EvidenceIsExclusive | server/services/actionReadback.js:95-110 | On every run no issue validates for two different actions of the ledger. |
| Protocol.CollisionKeepsIdentities | server/services/actionLedgerService.js:811-856 | A colliding adoption ends in conflict and leaves every identity as it was; a colliding dispatch record changes nothing. |
| Protocol.EveryWriteClaimWasApproved | server/services/actionLedgerService.js:303-378 | On every interleaved run each execution and repair claim was made, by its own clock, under a running approval of exactly the row's parameters. |
| ActionRuns.PostedIssuePassesReadback | server/services/actionBroker.js:337-359 | On every run each posted issue belongs to a row, and an open issue with exactly the posted repository, title, body and labels is fully applied for that row. |
| ActionRuns.WrittenLabelsWereMissing | server/services/actionBroker.js:223-286 | On every run the labels written for an action are exactly the declared ones that the issue read just before lacks. |
| ActionRuns.FailureWasDenied | server/services/actionBroker.js:362-383 | On every run an action that shows failed got there by an answer to its create that rules out an effect; a timeout or a lost response never fails one. |
| ActionRuns.ApprovalWasReviewed | server/services/actionLedgerService.js:553-586 | On every interleaved run the approval a row carries was given by a caller who had reviewed exactly its parameters, by cookie and for a time ahead. |
| ActionRuns.LoggedApprovalWasReviewed | server/services/actionLedgerService.js:553-586 | And so was every approval that the event log shows. |
| Progress.ApprovedActionSucceeds | server/services/actionBroker.js:337-486 | In any state of the system a queued, approved action whose create hands back the issue and whose readback shows it as declared succeeds, with one post and one read. |
| Progress.LostReplyIsRecovered | server/services/actionBroker.js:360-622 | In any such state, a create whose reply is lost leaves the row unknown; once the delay is over a reconcile whose search finds the issue ends it in success, and the issue was posted once. |
| Progress.UnknownActionIsFound | server/services/actionBroker.js:488-622 | In any state a due unknown row whose one candidate shows as declared succeeds, with no write to the gateway. |
| Progress.MissingLabelsAreAdded | server/services/actionBroker.js:184-335 | In any state a row ready for repair whose issue lacks labels has exactly those written where it stands, and succeeds when the issue then shows them all. |
| BrokerOutcomes.CreateSends | server/services/actionBroker.js:337-359 | An execution posts the declared repository, title and labels and the body with the marker exactly when its attempt holds the row, or the row is gone; otherwise it stops. |
| BrokerOutcomes.CreateAnswerDecides | server/services/actionBroker.js:360-430 | How every answer to a create ends: failed, with error and verdict, exactly when it rules out an effect; pointing at the issue exactly when it hands one back with a free identity; else unknown and due for reconcile. |
| BrokerOutcomes.ReadbackAnswerDecides | server/services/actionBroker.js:431-485 | How every readback of a created issue ends: succeeded exactly for a fully applied one, partly applied exactly when only labels are missing, else unknown. |
| BrokerOutcomes.ReadbackFails | server/services/actionBroker.js:431-447 | A readback that fails leaves the row unknown until the delay is over. |
| BrokerOutcomes.ReconcileSearches | server/services/actionBroker.js:488-500 | A reconcile searches exactly when its attempt holds the row, or the row is gone. |
| BrokerOutcomes.CandidatesDecide | server/services/actionBroker.js:561-621 | The status after a reconcile for every list of fetched issues: conflict for two that are the action's, the one that is if no other action has it, conflict if one has, else unknown. |
| BrokerOutcomes.EveryCandidateIsFetched | server/services/actionBroker.js:561-590 | A reconcile fetches every candidate that the search found and concludes with all of them, in order. |
| BrokerOutcomes.SearchAnswerDecides | server/services/actionBroker.js:543-560 | A search decides alone only when it finds nothing; else each candidate is fetched. |
| BrokerOutcomes.SearchFails | server/services/actionBroker.js:543-577 | A search or fetch that fails ends the whole reconcile and leaves the row unknown until the delay is over. |
| BrokerOutcomes.RepairStarts | server/services/actionBroker.js:184-256 | A repair that holds the row reads the issue, or ends unknown when the row does not say where it stands; one that does not stops. |
| BrokerOutcomes.RepairReadFails | server/services/actionBroker.js:253-314 | A repair whose read fails, before or after the write, leaves the row unknown and writes nothing. |
| BrokerOutcomes.InspectionDecides | server/services/actionBroker.js:253-286 | The first readback of a repair: success, unknown, or a write of exactly the labels the issue lacks at the stored issue. |
| BrokerOutcomes.LabelAnswerDecides | server/services/actionBroker.js:286-307 | The answer to a label write: denied blocks, throttled waits or gives up, success reads again, anything else is unknown. |
| BrokerOutcomes.ConfirmationDecides | server/services/actionBroker.js:308-335 | The second readback of a repair: success, another turn or the end of the budget while labels are missing, or unknown. |
| BrokerOutcomes.LostExecutionIsStale | server/services/actionBroker.js:360-430 | An answer to a create that comes after the lease is lost changes no row, and an issue it hands back is not read back. |
| BrokerOutcomes.LostReconcileIsStale | server/services/actionBroker.js:502-542 | A reconcile that lost its lease ends as stale and changes no row. |
| BrokerOutcomes.LostRepairIsStale | server/services/actionBroker.js:206-250 | So does a repair. |
| BrokerOutcomes.LocatorIsExact | server/services/actionBroker.js:173-183 | Where the issue of a row is looked for: the stored repository, or the declared one, and the stored number, if that is a positive safe integer. |
| ActionBroker.Broker.ExecuteClaimedAction | server/services/actionBroker.js:337-486 | For every script of answers, crashes and interfering calls the method ends as the step machine does; what that posts and how each answer ends it is in `BrokerOutcomes.CreateSends` and `BrokerOutcomes.CreateAnswerDecides`. |
| ActionBroker.Broker.ReadBackCreated | server/services/actionBroker.js:431-485 | The readback after a create records what the readback shows, and nothing on a crash. |
| ActionBroker.Broker.ReconcileClaimedAction | server/services/actionBroker.js:488-622 | Searching, fetching each candidate and concluding end as the step machine does, which is `BrokerOutcomes.CandidatesDecide`. |
| ActionBroker.Broker.RepairClaimedAction | server/services/actionBroker.js:184-335 | Inspecting, writing missing labels and confirming end as the step machine does, which is `BrokerOutcomes.InspectionDecides`, `LabelAnswerDecides` and `ConfirmationDecides`. |
| ActionBroker.ReconcileOutcomes | server/services/actionBroker.js:488-622 | A reconcile that ends reports one of the five outcomes its drive counts. |
| ActionBroker.RepairOutcomes | server/services/actionBroker.js:184-335 | A repair that ends reports one of the five outcomes its drive counts. |
| ActionBroker.RecoveryFeedsDrive | server/services/actionLedgerService.js:255-273 | The scan after a recovery pass lists what was due before it and every orphan of the pass, each once. |
| ActionBroker.DrivesListWhatIsDue | server/services/actionLedgerService.js:255-273 | Each drive goes through exactly the rows that are due, each once. |
| ActionBroker.QuietOperation | server/services/actionBroker.js:488-622 | With nobody interfering an operation changes no row but its own and only appends events. |
| ActionBroker.Broker.DriveReconciliation | server/services/actionBroker.js:624-656 | Claimed equals the sum of the outcomes and recovered is the number of orphans; without a competing caller the claimed rows are exactly the orphans and the rows that were due, and no other row changes. |
| ActionBroker.Broker.DriveRepair | server/services/actionBroker.js:658-698 | Scanned is the number of due rows and claimed plus blocked the sum of the outcomes; without a competing caller each due row is claimed if budget and approval last and blocked if not, and no other row changes. |
| BrokerRefinement.OperationIsARun | server/services/actionBroker.js:184-622 | From any reachable state and under any schedule, claims and records of other workers included, the method leaves the ledger and gives the outcome of the interleaved run. |
| CanonicalParams.JsonVisitor.Visit | server/services/actionLedgerService.js:57-101 | The recursive walk accepts a value exactly when all its parts are in bounds and the shared key counter stays in budget. |
| CanonicalParams.ValidateBoundedJson | server/services/actionLedgerService.js:53-102 | A value is accepted exactly when it is in bounds and has few enough keys in all. |
| CanonicalParams.BoundedIsEveryPart | server/services/actionLedgerService.js:53-102 | A value is in bounds exactly when each of its parts, however deep, may stand where it does: JSON, at most eight levels down, no string or array too long. |
| CanonicalParams.CanonicalizeParams | server/services/actionLedgerService.js:125-177 | Parameters are accepted exactly when acceptable, and then give the canonical ones; everything else is a bad request. |
| CanonicalParams.RefusedExactly | server/services/actionLedgerService.js:125-168 | Parameters are refused exactly for no object, a member of another name, a text that is missing or too long, or labels that are neither absent nor up to a hundred such texts. |
| CanonicalParams.CanonicalLabelsAreSorted | server/services/actionLedgerService.js:173-175 | Canonical labels are strictly sorted, without repeats, and are exactly the normalized labels. |
| CanonicalParams.CanonicalLabelsDependOnSet | server/services/actionLedgerService.js:173-175 | Canonical labels depend only on the set of normalized labels. |
| CanonicalParams.FieldsKeepTheirNames | server/services/actionLedgerService.js:125-176 | Canonical repository, title and body each come from the input member of that name and no other. |
| CanonicalParams.LabelsKeepTheirName | server/services/actionLedgerService.js:137-176 | Canonical labels are the normalized strings of the labels member, and none when it is absent. |
| CanonicalParams.RedeclareIsIdempotent | server/services/actionLedgerService.js:480-527 | After an accepted declaration and any further calls, declaring the same intent, labels permuted, repeated or respelled, answers the same action and changes nothing. |
| CanonicalParams.RedeclareIsExact | server/services/actionLedgerService.js:480-527 | After an accepted declaration and any further calls, declaring on its slot again changes nothing and answers the action for the same digest, a conflict for another, a bad request for bad input. |
| ArgsTemplate.JoinTokens | server/services/agentProfileService.js:112-114 | Two texts that cannot interact at their joint tokenize to the tokens of each, stray quotes included. |
| ArgsTemplate.WordIsLongestMatch | server/services/agentProfileService.js:112-114 | What is taken at a position is the longest prefix made of plain characters and closed quoted parts, as the pattern says. |
| ArgsTemplate.TokensAreUnquoted | server/services/agentProfileService.js:112-114 | A word is one token, without its quotes when it is quoted as a whole on one line. |
| ArgsTemplate.StrayQuoteIsSkipped | server/services/agentProfileService.js:112-114 | A quote that nothing closes is skipped. |
| ArgsTemplate.FindRemovals | server/services/agentProfileService.js:122-145 | The first loop finds exactly the matches that make up permission-mode options, values included. |
| ArgsTemplate.Widen | server/services/agentProfileService.js:149-156 | A removal takes the white space before it, or else the white space after it, and nothing more. |
| ArgsTemplate.StripClaudePermissionModeOption | server/services/agentProfileService.js:120-160 | For every text, tokenizing the stripped text gives the original tokens without the permission-mode options, in order; a text without the option is returned as it is. |
| AgentProfiles.ReadSingleClaudeTemplateOption | server/services/agentProfileService.js:162-183 | The reader's loop answers the option's single value, none, or an error for a missing value or a repeat. |
| AgentProfiles.SingleValueIsGiven | server/services/agentProfileService.js:162-183 | A value that is read is the only one read, is not empty, and stands in the template after the option or its equals sign. |
| AgentProfiles.OneModeIsRead | server/services/agentProfileService.js:162-183 | A mode given once is read in either form, wherever it stands; given again it is an error. |
| AgentProfiles.MissingValueIsAnError | server/services/agentProfileService.js:167-178 | An option that stands last, before another option or before an empty value is an error. |
| AgentProfiles.WithoutModeHasNone | server/services/agentProfileService.js:116-145 | Nothing that is kept is a mode option, and something is dropped exactly when there was one. |
| AgentProfiles.OptionsAreDropped | server/services/agentProfileService.js:132-145 | An option goes with its value, or alone when an option follows it; every other token stays in place. |
| AgentProfiles.ReaderAgrees | server/services/agentProfileService.js:116-118 | The reader finds no mode exactly when no token is a mode option. |
| AgentProfiles.ResetResolvesToDefault | server/services/agentProfileService.js:536-553 | After an accepted explicit null a Claude profile resolves to the default mode and keeps every other token. |
| AgentProfiles.UpdatedRowResolves | server/services/agentProfileService.js:346-363 | After every accepted update a Claude profile resolves, and to a known mode. |
| AgentProfiles.QuietUpdateKeepsMode | server/services/agentProfileService.js:554-573 | An update that names neither mode, template nor command keeps the mode the profile runs with. |
| AgentProfiles.ChangedTemplateIsClean | server/services/agentProfileService.js:442-463 | A template that an update changes carries no mode option. |
| AgentProfiles.ParsedExactly | server/services/agentProfileService.js:273-343 | When a template parses to a mode, or to none. |
| AgentProfiles.ResolvedExactly | server/services/agentProfileService.js:346-363 | A profile runs with a mode exactly when its column says it, or its template does without a column, or neither does and it is the default. |
| AgentProfiles.UpdatedColumns | server/services/agentProfileService.js:528-607 | Each column after an accepted update, promotion of the template's mode and the cleaned template included. |
| AgentProfiles.AcceptedExactly | server/services/agentProfileService.js:528-600 | An update that does not reset the mode is accepted exactly when command, mode, other columns and a template new to the profile pass their checks. |
| AgentProfiles.ResetAcceptedExactly | server/services/agentProfileService.js:528-600 | A reset is accepted exactly when the command is allowed and the stripped template passes them. |
| AgentProfiles.AgentProfileService.ParseClaudeArgsTemplate | server/services/agentProfileService.js:273-343 | Parsing answers the template's mode, or fails for a bad mode or a bad other option. |
| AgentProfiles.AgentProfileService.ResolveClaudePermissionMode | server/services/agentProfileService.js:346-363 | The column wins over the template, and the template over the default. |
| AgentProfiles.AgentProfileService.UpdateProfile | server/services/agentProfileService.js:528-607 | The row is replaced by the updated one or, on any rejection, nothing changes. |
| AutoReview.CountsStayInRange | server/app.js:447-516 | On every run stored counts lie between one and the maximum and both maps have the same keys. |
| AutoReview.InFlightIsOneDeferredReview | server/app.js:574-605 | On every run a goal run is in flight exactly while one deferred review of it is unsettled. |
| AutoReview.BreakerBoundsSends | server/app.js:451-468 | Sends delivered and scheduled since the last clear or restart never exceed the maximum plus what stale failures gave back. |
| AutoReview.ConservationStep | server/app.js:461-514 | A balanced count stays balanced over a step exactly unless the step is a failing stale send with a later one on the books. |
| AutoReview.BreakerConservation | server/app.js:447-516 | Along a run the count equals sends delivered plus scheduled since the last clear or restart, if and only if no such failure happens. |
| AutoReview.QuietClearsConserve | server/app.js:331-348 | When no clear finds a scheduled send of its key, the count equals all sends delivered and scheduled, at most the maximum. |
| AutoReview.StaleFailureLosesAReservation | server/app.js:461-465 | Schedule, clear, schedule, fail the first: the count is zero with one send scheduled. |
| AutoReview.ReviewedOncePerMarker | server/app.js:589-597 | While markers can be read a goal run is reviewed once per marker that failed to be written, plus once for the stored one. |
| AutoReview.MarkedIsNeverSentAgain | server/app.js:563-575 | Once the marker is stored no continuation, process restarts included, reviews the run again, while markers can be read. |
| AutoReview.OnlyAnUnreadMarkerReschedules | server/app.js:551-605 | A run whose marker is stored is claimed again by a step exactly when it is a dispatch that could not read the marker and passes the checks of row, receiver, task, manager, breaker, text and scheduler. |
| AutoReview.MarkedIsSentAgainExactlyWhenUnread | server/app.js:487-605 | After the marker is stored the run is reviewed again in the course of any steps, restarts included, if and only if such a dispatch occurs and the send it defers goes out. |
| AutoReview.UnreadableMarkerSendsTwice | server/app.js:563-567 | With an unreadable marker a reviewed run is reviewed again. |
| AutoReview.SweepIsARun | server/app.js:613-619 | A sweep is its dispatches one after the other. |
| AutoReview.DispatchIsExact | server/app.js:447-516 | Each outcome of a dispatch exactly when it occurs; a place is reserved exactly when a send is scheduled, and no other count changes. |
| AutoReview.HarvestIsExact | server/app.js:518-549 | A harvested run is reviewed exactly when it is a worker's without a goal, has a project and a receiver, and no retry is pending. |
| AutoReview.Gate2IsExact | server/app.js:569-606 | A goal run is reviewed exactly when it has one of three verdicts, a task and a project, no claim and no readable marker; then it is claimed. |
| AutoReview.SettleIsExact | server/app.js:487-509 | A deferred send gives its place back exactly when it fails, marks exactly when it and the marker succeed, and always releases the claim. |
| AutoReview.ClearIsExact | server/app.js:331-413 | Which entries a slot clear drops, key by key. |
| AutoReview.PmAutoReview.DispatchReview | server/app.js:447-516 | Reservation, refusal and rollback on a failing build or schedule, with the whole new state. |
| AutoReview.PmAutoReview.SendPmReview | server/app.js:518-549 | A harvested run is reviewed unless it is a manager's, a goal's or about to be retried. |
| AutoReview.PmAutoReview.DispatchGate2Review | server/app.js:569-606 | The claim is held exactly when a send was scheduled. |
| AutoReview.PmAutoReview.RunDeferred | server/app.js:487-509 | The deferred send rolls back on failure, marks on success, and releases the claim on every path. |
| AutoReview.PmAutoReview.ReviewSweep | server/app.js:613-619 | The loop dispatches every listed run in order. |
| AutoReview.PmAutoReview.OnSlotCleared | server/app.js:331-413 | Exactly the entries of the top slot or of the cleared receivers are dropped from both maps. |
| ParentNotices.NoticeStep | server/services/conversationService.js:436-455 | Balanced notices stay balanced exactly unless an accepted turn drains notices queued after a clear, or no longer finds what it peeked at the head. |
| ParentNotices.NoticesAreConserved | server/services/conversationService.js:436-455 | Along a run delivered followed by pending notices are those queued since the last clear, if and only if no accepted turn drains what it did not deliver. |
| ParentNotices.UndisturbedTurnsKeepNotices | server/services/conversationService.js:606-613 | If no queue is cleared or consumed during an open turn of its run, no notice is lost, duplicated or reordered. |
| ParentNotices.ClearInsideATurnLosesANotice | server/services/conversationService.js:204-207 | Queue, peek, clear, queue, accept: the second notice is dropped unread. |
| ParentNotices.ContextIsOfLastAcceptedTurn | server/services/conversationService.js:957-1011 | Along a run the stored context is that of the open turn or else of the last accepted one, if and only if it is never cleared under an open turn that set one. |
| ParentNotices.ClearInsideATurnFalsifiesTheContext | server/app.js:1539-1542 | A clear inside a turn: an accepted turn leaves no context, a refused one brings back the cleared one. |
| ParentNotices.SendIsARun | server/services/conversationService.js:957-1033 | A send, with single calls and whole turns of other managers nested in it to any depth, is a run of the steps above. |
| ParentNotices.DeliveredCarries | server/services/conversationService.js:606-613 | The text given to the adapter is the pending notices in order, a blank line between two, then a ruled line and the user's text; without notices it is the text. |
| ParentNotices.AcceptedSendDelivers | server/services/conversationService.js:1024-1033 | On every run in which the queue is not cleared under it, an accepted send counts as delivered exactly the notices that were pending when it began, which stood at the head, and leaves the rest. |
| ParentNotices.EntriesAreNotEmpty | server/services/conversationService.js:448-455 | On every run no manager has an empty entry in the queue. |
| ParentNotices.ConversationService.SendToManagerSlot | server/services/conversationService.js:606-1094 | The offered text carries exactly the notices pending at the start; an accepted turn takes as many from the head of the queue and queues its own notice for the parent; any other leaves every queue and puts the earlier context back. |
| ParentNotices.ConversationService.CommitDrainParentNotices | server/services/conversationService.js:448-455 | The drain removes the given number from the head, or what there is, and drops an empty entry. |
| ParentNotices.ConversationService.SendToWorker | server/services/conversationService.js:1123-1206 | A delivered worker message queues one notice for a live parent; a failed one queues none. |
| ArtifactCheck.DoubleStarSpansSegments | server/services/artifactCheck.js:26-42 | A double star matches any stretch without a line terminator and swallows one slash. |
| ArtifactCheck.StarStaysInSegment | server/services/artifactCheck.js:26-42 | A single star matches any stretch of one segment. |
| ArtifactCheck.DoubleStarTakesItsSlash | server/services/artifactCheck.js:30-32 | `**/` in front of a glob matches any stretch, also an empty one, before what the glob matches. |
| ArtifactCheck.OneCharacterIsOne | server/services/artifactCheck.js:33-38 | A question mark is one character but a slash, and any other character is itself. |
| ArtifactCheck.LiteralGlobMatchesItself | server/services/artifactCheck.js:34-38 | A glob without wildcards matches itself only, whatever characters it holds. |
| ArtifactCheck.OutsideTheSubset | server/services/artifactCheck.js:26-42 | The reader of patterns takes a syntax character only behind a backslash, as section 22.2 of ECMA-262 has it, and no quantifier but the star. |
| ArtifactCheck.EmittedTextReadsBack | server/services/artifactCheck.js:26-42 | The emitted pattern text parses, by the rules of section 22.2 of ECMA-262, to one term per step of the glob. |
| ArtifactCheck.CompilerPreservesMeaning | server/services/artifactCheck.js:26-42 | For every glob and path the emitted anchored pattern matches exactly what the direct matcher accepts. |
| ArtifactCheck.GlobToRegExp | server/services/artifactCheck.js:26-42 | The index loop emits a pattern that matches a path exactly when the glob does. |
| ArtifactCheck.EvalFileRule | server/services/artifactCheck.js:82-96 | A rule holds exactly when some matching file is big enough, or nothing matches and nothing has to exist; the count is the number of matching files. |
| ArtifactCheck.FileRuleFails | server/services/artifactCheck.js:82-96 | A rule fails exactly when nothing matches that has to exist, or something matches and none of it has the size asked for. |
| ArtifactCheck.EvalReportRule | server/services/artifactCheck.js:120-137 | A report holds exactly when it is there, long enough, complete and, if asked for, JSON. |
| ArtifactCheck.ReportFails | server/services/artifactCheck.js:120-137 | A report fails exactly when it is not there, too short, lacks something, or is not the JSON it should be. |
| ArtifactCheck.EvaluateArtifactCheck | server/services/artifactCheck.js:147-165 | A check passes exactly when there is a workspace and at least one rule, and every rule holds. |
| CompositionLedger.LatestIsLatest | server/services/compositionLedger.js:110-115 | The composition a gate reads is the latest by acceptance, creation and row order. |
| CompositionLedger.AcceptedIsRead | server/services/compositionLedger.js:103-115 | A recorded composition becomes the one the gate reads on acceptance exactly when every other one accepted in that second was created before it. |
| CompositionLedger.AcceptChangesWhatIsPending | server/services/compositionLedger.js:386-395 | Accepting changes the ledger exactly when an event with the id is pending, which is what it answers. |
| CompositionLedger.AcceptedInTheSameSecondIsNotRead | server/services/compositionLedger.js:349-395 | Record current owners, commit older ones, accept the record in the same second: the gate reads the older ones and asks again. |
| CompositionLedger.CleanupIsInvisible | server/services/compositionLedger.js:133-155 | Cleaning one slot changes what no gate reads, neither its own nor another slot's. |
| CompositionLedger.CleanupLeavesOne | server/services/compositionLedger.js:506-517 | A cleanup leaves at most one accepted event of its slot, no pending event older than a day, and every other event. |
| CompositionLedger.CommitConverges | server/services/compositionLedger.js:421-473 | Committing the current owners makes the gate answer unchanged for them, in whatever order their rows are read. |
| CompositionLedger.LoneOwnerConverges | server/services/compositionLedger.js:28-40 | A lone owner settles exactly when its two provenances agree, whatever its names. |
| CompositionLedger.ConvergesExactlyWhenPlain | server/services/compositionLedger.js:28-40 | Owners of distinct type and id without colons settle exactly when the two provenances of each agree, in every order of reading. |
| CompositionLedger.PlainSettlesInOrder | server/services/compositionLedger.js:433-466 | Owners whose provenances agree settle for one order of reading exactly when none has a newer revision than the row that comes last under its key. |
| CompositionLedger.PlainConvergesExactly | server/services/compositionLedger.js:118-123 | They settle in every order of reading exactly when no two share a key with one revision newer than, or gained over, the other. |
| CompositionLedger.CollidingKeysMayNotSettle | server/services/compositionLedger.js:28-40 | Two stored, plain owners whose names run together under one key: not settled when read as inserted or by primary key, settled the other way round. |
| CompositionLedger.SettledExactly | server/services/compositionLedger.js:421-473 | For rows read in any order: the gate is settled exactly when the last row of each owner's key has a revision that reaches the owner's, or the owner has none, and each row is some owner's; a stored null reaches nothing. |
| CompositionLedger.GainedRevisionComposes | server/services/compositionLedger.js:457-459 | An owner committed without a revision asks for a composition exactly once it has one. |
| CompositionLedger.ProvenancePrecedence | server/services/compositionLedger.js:28-40 | Which of two provenances a row is stored under and which it is compared by. |
| CompositionLedger.RetentionIsInvisible | server/services/compositionLedger.js:506-517 | In every reachable ledger, whatever the clock did, a cleanup changes the answer of no gate. |
| CompositionLedger.GateReadsUntilReplaced | server/services/compositionLedger.js:103-155 | Over any further steps a gate reads the same composition exactly until one of its slot is committed, or accepted as the last of its second. |
| CompositionLedger.CommittingClosesTheGate | server/services/compositionLedger.js:371-376 | In every reachable ledger, while the clock does not go back, a commit of the current owners closes the gate, and it stays closed until then. |
| CompositionLedger.AcceptingClosesTheGate | server/services/compositionLedger.js:386-395 | So does accepting a recorded composition of the current owners, if it is the last of its second. |
| CompositionLedger.CompositionLedgerService.Record | server/services/compositionLedger.js:349-358 | A pending event with its owners, or nothing when a constraint fails. |
| CompositionLedger.CompositionLedgerService.CommitAccepted | server/services/compositionLedger.js:371-376 | An accepted event with its owners in one transaction, or an error and no change. |
| CompositionLedger.CompositionLedgerService.Accept | server/services/compositionLedger.js:386-395 | The pending event with the id becomes accepted; the answer says whether there was one. |
| CompositionLedger.CompositionLedgerService.ShouldCompose | server/services/compositionLedger.js:421-477 | For any order of the rows read, the gate answers unchanged exactly when no owner appeared, disappeared, gained or increased a revision, and every other answer names a true reason; a closed gate never asks. |
| CompositionLedger.CompositionLedgerService.Cleanup | server/services/compositionLedger.js:506-517 | The rows that are deleted, and the order of those that stay. |
| Migrations.ExecutedOnceAndUpward | server/db/database.js:84-162 | Over any calls, including ones that stop part-way, executed versions strictly increase, each is recorded, and no recorded row changes. |
| Migrations.CompletedCallIsFinal | server/db/database.js:84-162 | A completed call leaves every listed file recorded with its checksum, and the same directory executes nothing again. |
| Migrations.ChangedOrLateFileStopsTheCall | server/db/database.js:85-101 | A file whose recorded checksum differs, or a new file below the head, stops the call before anything is executed. |
| Migrations.CallCompletesExactlyWhen | server/db/database.js:20-162 | A call completes exactly when the names are accepted, no file blocks it and nothing in it fails. |
| Migrations.PlanIsAscending | server/db/database.js:21-42 | An accepted directory is gone through in ascending order of distinct positive versions, all of its files included. |
| Migrations.ValueIsPositional | server/db/database.js:30-33 | The digits of a file name are read by place value. |
| Migrations.LeadingZero | server/db/database.js:30-33 | Zeros in front make no difference. |
| Migrations.NameHasVersion | server/db/database.js:24-30 | Every number, underscore, title on one line and extension is a name with that version. |
| Migrations.VersionNeedsName | server/db/database.js:24-30 | No other name has one. |
| Migrations.ScriptsEndSo | server/db/database.js:22-23 | A call looks at exactly the names with the extension of a script. |
| Migrations.TenDigits | server/db/database.js:25 | A digit is one of ten characters. |
| Migrations.ListedIsExact | server/db/database.js:21-42 | A directory is refused exactly for a script with a bad name or two of one version; otherwise exactly its scripts are listed. |
| Migrations.CallExecutesExactly | server/db/database.js:84-162 | A call that nothing blocks executes a pending file exactly when it and all before it can be read and commit, and records its checksum; a failing script leaves no trace. |
| Migrations.CallExecutesListedOnly | server/db/database.js:20-162 | No call executes anything that is not listed, and a refused one nothing. |
| Migrations.Runner.ListMigrations | server/db/database.js:21-42 | The listing loop refuses malformed names, versions out of range and repeated versions, and sorts the rest. |
| Migrations.Runner.ExecuteOne | server/db/database.js:103-158 | The script and its row are both kept or both undone, and foreign keys are on again afterwards. |
| Migrations.Runner.Migrate | server/db/database.js:20-162 | The whole new state and the answer of one call, with the applied set and the head updated in the loop. |
| AppServerSession.FramingIgnoresChunking | server/services/codexService.js:137-157 | All ways of cutting a text into chunks leave the same session, if and only if no line before the last one is a bare null. |
| AppServerSession.FramingIsLineByLine | server/services/codexService.js:137-157 | Then the lines handled, the leftover buffer and the answers are those of handling the text's lines in order. |
| AppServerSession.LinesAreTheText | server/services/codexService.js:137-142 | A text is its lines, each with its newline, and the rest; none has a newline inside. |
| AppServerSession.ReaderIsExact | server/services/codexService.js:141-149 | A blank line says nothing, and any other is parsed without the white space around it. |
| Common.TrimIsExact | server/services/codexService.js:141 | A text is its trimmed form between white space, and that form has none at its ends. |
| AppServerSession.DrainStopsAtFirst | server/services/codexService.js:137-157 | The loop stops at the first line that throws and leaves the lines behind it in the buffer. |
| AppServerSession.DrainGoesThrough | server/services/codexService.js:137-157 | It throws exactly when some complete line does. |
| AppServerSession.ResponseSettles | server/services/codexService.js:150-155 | A line with the id of a waiting request is that caller's answer and ends its wait; any other line tells nobody anything. |
| AppServerSession.FirstLineAnswers | server/services/codexService.js:137-157 | However a quiet text arrives, a waiting id is told exactly when some line carries it, and is told the first such line. |
| AppServerSession.ChunkAnswers | server/services/codexService.js:137-157 | The same of one chunk in every reachable session, whatever its buffer holds. |
| AppServerSession.RequestTells | server/services/codexService.js:159-201 | A request waits exactly when it could be written; otherwise its caller alone is told why. |
| AppServerSession.TimeoutSettles | server/services/codexService.js:171-174 | A timeout tells a waiting caller and changes nothing for any other. |
| AppServerSession.EndingTells | server/services/codexService.js:119-135 | Exit and error tell each waiting caller once and nobody else. |
| AppServerSession.EachRequestSettlesOnce | server/services/codexService.js:119-201 | On every run each id given out is waiting or has been told exactly once, and a response carries the id of its request (section 5 of JSON-RPC 2.0). |
| AppServerSession.ExitLeavesNobodyWaiting | server/services/codexService.js:119-126 | After the child exits every request ever made has been told. |
| AppServerSession.AppServer.OnData | server/services/codexService.js:137-157 | The loop over the buffer handles the complete lines up to the first that throws; what each line tells whom is in `AppServerSession.ResponseSettles`. |
| AppServerSession.AppServer.Request | server/services/codexService.js:159-201 | A request takes the next id and waits, unless it cannot be spawned or written. |
| AppServerSession.AppServer.OnTimeout | server/services/codexService.js:171-174 | A timeout rejects a waiting request and says nothing to one that was answered. |
| AppServerSession.AppServer.RejectAll | server/services/codexService.js:119-135 | Exit and error reject every waiting request in order. |

## Left out

- ActionLedgerService.ActionLedger.RecordExecutionResult: does not model receipts, digests, transport columns and redaction, because no property reads them.
- ActionLedgerService.ActionLedger.RecoverOrphanedLeases: visits leases in row order instead of claim time, because the passes commute.
- ActionBroker.Broker.ExecuteClaimedAction: does not model a second call for one claim, because callers make one call for each claim.
- BrokerOutcomes.RepairStarts: does not say which issue a read asks for, because a read is logged by its answer; where a row's issue stands is `LocatorIsExact`, and label writes carry it.
- ActionBroker.Broker.ReconcileClaimedAction: does not model the text of search results, only which issue each fetch returns.
- CanonicalParams.ValidateBoundedJson: does not model cyclic values, because a JSON datatype is a finite tree.
- AgentProfiles.AgentProfileService.UpdateProfile: models the columns that take part in mode resolution; the checks of the other columns are one predicate.
- AutoReview.PmAutoReview.DispatchReview: does not model the text that is sent, only whether building it fails.
- ParentNotices.ConversationService.SendToManagerSlot: does not model spawning an operator, the binding check or the memory blocks, which happen before the queue is touched or do not touch it.
- ParentNotices.UndisturbedTurnsKeepNotices: excludes a second turn of the same manager inside an open one.
- ArtifactCheck.EvaluateArtifactCheck: takes the list of files as given; the bounded directory walk is not part of this model.
- CompositionLedger.CommitConverges: is stated for owner types and ids without a colon; other lists are covered by `PlainConvergesExactly`.
- AutoReview.PmAutoReview.RunDeferred: does not model the queue behind a send, whose later rejection the dispatcher never sees.
- ParentNotices.SendIsARun: excludes a send of a manager nested in an open turn of the same manager, because the books keep one open turn for each manager.
- CompositionLedger.CompositionLedgerService.CommitAccepted: does not model item edges, hashes and budgets, which no gate reads.
- Migrations.Runner.ExecuteOne: assumes that a rollback succeeds and that a script writes no version row but its own; the procedural step of migration 34 counts as part of its script.
- AppServerSession.FramingIgnoresChunking: speaks of one child process; the buffer is not cleared when a new child starts.
- ArtifactCheck.CompilerPreservesMeaning: takes a character outside the basic plane as one character, where the original's pattern sees two code units and needs two `?`; lone surrogates are no texts here.
- CanonicalParams.CanonicalLabelsAreSorted: sorts by character, which differs from the original's order by code unit only for labels with characters outside the basic plane.
- The other template option readers (boolean, string, list) are one predicate on the tokens; creating, listing and deleting profiles is left out.
- `appendEvent` called from outside the broker, and repair maxima that change between calls.
- String redaction, error sanitizing and receipt size limits.
- The schema triggers that make intent columns immutable; the model's updates keep them by construction.
- HTTP routes, authentication, credential resolution, process spawning, file browsing and the front end.
- Services whose source the modelled code only calls: runs, tasks, the manager registry, the memory composer, the message queue, lifecycle.
- Goal delivery: its compare-and-set lives in a service that is not part of this model.
- Admission gate, dispatch policy, goal mode, goal prompt and event channels: one-branch checks.
