/**
 * The review dispatcher: a circuit breaker per receiver and task, an in-flight claim per goal
 * run and a durable marker, under deferred sends, sweeps, slot clears and process restarts.
 */
module AutoReview {
  import opened Common

  datatype Receiver = Receiver(slotKey: string, countKey: string)

  /** What a deferred send remembers. `gate2` is the goal run whose claim it holds. */
  datatype Job = Job(countKey: string, slotKey: string, gate2: Option<string>)

  /** The dispatcher's maps and set, and the runs that carry the durable marker. */
  datatype Desk = Desk(counts: map<string, nat>, slots: map<string, string>, inFlight: set<string>, marked: set<string>)

  /** What the dispatcher finds when it dispatches: a live manager, a text, a working scheduler. */
  datatype Surroundings = Surroundings(managerActive: bool, buildOk: bool, deferOk: bool)

  datatype Outcome = NoManager | BreakerMax | BuildFailed | DeferFailed | Dispatched

  /** The columns of a run that decide whether it is reviewed. */
  datatype RunRow = RunRow(id: string, isManager: bool, goalActive: bool, hasTask: bool, hasProject: bool, verdict: string)

  const REVIEWABLE: set<string> := {"gate2", "exhausted", "error"}

  function Count(d: Desk, key: string): nat {
    if key in d.counts then d.counts[key] else 0
  }

  function Reserve(d: Desk, r: Receiver): Desk {
    d.(counts := d.counts[r.countKey := Count(d, r.countKey) + 1], slots := d.slots[r.countKey := r.slotKey])
  }

  /** Takes one reservation back; an entry that reaches zero is dropped. */
  function Rollback(d: Desk, key: string): Desk {
    if Count(d, key) <= 1 then d.(counts := d.counts - {key}, slots := d.slots - {key})
    else d.(counts := d.counts[key := d.counts[key] - 1])
  }

  function Dispatch(d: Desk, r: Receiver, at: Surroundings, max: nat): (Desk, Outcome) {
    if !at.managerActive then (d, NoManager)
    else if Count(d, r.countKey) >= max then (d, BreakerMax)
    else if !at.buildOk then (Rollback(Reserve(d, r), r.countKey), BuildFailed)
    else if !at.deferOk then (Rollback(Reserve(d, r), r.countKey), DeferFailed)
    else (Reserve(d, r), Dispatched)
  }

  /** The body of a deferred send. */
  function Settle(d: Desk, job: Job, sendOk: bool, markOk: bool): Desk {
    var after := if sendOk then d else Rollback(d, job.countKey);
    match job.gate2
    case None => after
    case Some(run) =>
      after.(inFlight := after.inFlight - {run}, marked := if sendOk && markOk then d.marked + {run} else d.marked)
  }

  predicate Reviewable(row: Option<RunRow>) {
    && row.Some? && !row.value.isManager && row.value.goalActive && row.value.hasTask && row.value.hasProject
    && row.value.verdict in REVIEWABLE
  }

  /** The marker of a run as the dispatcher sees it: a read that fails counts as no marker. */
  predicate SeesMarker(d: Desk, run: string, readable: bool) {
    readable && run in d.marked
  }

  predicate Gate2Starts(d: Desk, row: Option<RunRow>, receiver: Option<Receiver>, taskFound: bool, readable: bool) {
    && Reviewable(row) && row.value.id !in d.inFlight && !SeesMarker(d, row.value.id, readable)
    && receiver.Some? && taskFound
  }

  function DispatchGate2(d: Desk, row: Option<RunRow>, receiver: Option<Receiver>, taskFound: bool, readable: bool,
                         at: Surroundings, max: nat): (Desk, Option<Job>)
  {
    if !Gate2Starts(d, row, receiver, taskFound, readable) then (d, None)
    else
      var run := row.value.id;
      var (after, outcome) := Dispatch(d, receiver.value, at, max);
      if outcome.Dispatched? then
        (after.(inFlight := d.inFlight + {run}),
         Some(Job(receiver.value.countKey, receiver.value.slotKey, Some(run))))
      else (after.(inFlight := d.inFlight - {run}), None)
  }

  /** A harvested run is reviewed unless it is a manager's, a goal's, or about to be retried. */
  predicate HarvestReviewed(row: Option<RunRow>, receiver: Option<Receiver>, suppressed: bool) {
    row.Some? && !row.value.isManager && !row.value.goalActive && row.value.hasProject && receiver.Some? && !suppressed
  }

  function DispatchHarvest(d: Desk, row: Option<RunRow>, receiver: Option<Receiver>, suppressed: bool,
                           at: Surroundings, max: nat): (Desk, Option<Job>)
  {
    if !HarvestReviewed(row, receiver, suppressed) then (d, None)
    else
      var (after, outcome) := Dispatch(d, receiver.value, at, max);
      (after, if outcome.Dispatched? then Some(Job(receiver.value.countKey, receiver.value.slotKey, None)) else None)
  }

  /** The count keys of one receiver. */
  predicate Owns(receiver: string, key: string) {
    receiver != "" && receiver + ":" <= key
  }

  /** The entries a slot clear concerns. */
  predicate Concerns(top: bool, prefixes: seq<string>, key: string, slot: string) {
    (top && slot == "top") || (exists i :: 0 <= i < |prefixes| && Owns(prefixes[i], key))
  }

  function ClearedKeys(d: Desk, top: bool, prefixes: seq<string>): set<string> {
    set key | key in d.counts && Concerns(top, prefixes, key, if key in d.slots then d.slots[key] else "")
  }

  function ClearSlot(d: Desk, top: bool, prefixes: seq<string>): Desk {
    var gone := ClearedKeys(d, top, prefixes);
    d.(counts := d.counts - gone, slots := d.slots - gone)
  }

  /** What holds of the maps whatever happened: same keys, and counts between one and the maximum. */
  predicate DeskOk(d: Desk, max: nat) {
    && d.counts.Keys == d.slots.Keys
    && forall key :: key in d.counts ==> 1 <= d.counts[key] <= max
  }

  // ---------------------------------------------------------------- one call

  predicate CanSend(d: Desk, r: Receiver, at: Surroundings, max: nat) {
    at.managerActive && at.buildOk && at.deferOk && Count(d, r.countKey) < max
  }

  /** One more review for a key, to be sent to the receiver's slot. */
  predicate OneMoreBooked(d: Desk, e: Desk, r: Receiver) {
    e.counts == d.counts[r.countKey := Count(d, r.countKey) + 1] && e.slots == d.slots[r.countKey := r.slotKey]
  }

  /**
   * No count changes. A text or a schedule that fails behind a reservation that stays leaves the
   * slot of its key overwritten.
   */
  predicate NothingBooked(d: Desk, e: Desk, r: Receiver, at: Surroundings, max: nat) {
    && e.counts == d.counts
    && e.slots == if at.managerActive && 0 < Count(d, r.countKey) < max then d.slots[r.countKey := r.slotKey] else d.slots
  }

  /** Which outcome a dispatch has, and that it reserves a place exactly when it schedules a send. */
  lemma DispatchIsExact(d: Desk, r: Receiver, at: Surroundings, max: nat)
    requires DeskOk(d, max)
    ensures var (e, outcome) := Dispatch(d, r, at, max);
      && (outcome.Dispatched? <==> CanSend(d, r, at, max))
      && (outcome.NoManager? <==> !at.managerActive)
      && (outcome.BreakerMax? <==> at.managerActive && Count(d, r.countKey) >= max)
      && (outcome.BuildFailed? <==> at.managerActive && Count(d, r.countKey) < max && !at.buildOk)
      && (if outcome.Dispatched? then OneMoreBooked(d, e, r) else NothingBooked(d, e, r, at, max))
      && e.inFlight == d.inFlight && e.marked == d.marked
  {
  }

  /** A harvested run is reviewed exactly when it is a worker's, has a project and a receiver, no goal and no retry. */
  lemma HarvestIsExact(d: Desk, row: Option<RunRow>, receiver: Option<Receiver>, suppressed: bool, at: Surroundings,
                       max: nat)
    requires DeskOk(d, max)
    ensures var (e, job) := DispatchHarvest(d, row, receiver, suppressed, at, max);
      && (job.Some? <==>
            && row.Some? && !row.value.isManager && !row.value.goalActive && row.value.hasProject
            && !suppressed && receiver.Some? && CanSend(d, receiver.value, at, max))
      && (job.Some? ==>
            && job.value == Job(receiver.value.countKey, receiver.value.slotKey, None)
            && OneMoreBooked(d, e, receiver.value))
      && (job.None? ==> e.counts == d.counts)
      && e.inFlight == d.inFlight && e.marked == d.marked
  {
    if receiver.Some? { DispatchIsExact(d, receiver.value, at, max); }
  }

  /**
   * A goal run is reviewed exactly when it has an active goal with one of three verdicts, a task and
   * a project, no review of it is under way and no marker of one is read; then it is claimed.
   */
  lemma Gate2IsExact(d: Desk, row: Option<RunRow>, receiver: Option<Receiver>, taskFound: bool, readable: bool,
                     at: Surroundings, max: nat)
    requires DeskOk(d, max)
    ensures var (e, job) := DispatchGate2(d, row, receiver, taskFound, readable, at, max);
      && (job.Some? <==>
            && row.Some? && !row.value.isManager && row.value.goalActive && row.value.hasTask && row.value.hasProject
            && (row.value.verdict == "gate2" || row.value.verdict == "exhausted" || row.value.verdict == "error")
            && row.value.id !in d.inFlight && !(readable && row.value.id in d.marked)
            && taskFound && receiver.Some? && CanSend(d, receiver.value, at, max))
      && (job.Some? ==>
            && job.value == Job(receiver.value.countKey, receiver.value.slotKey, Some(row.value.id))
            && OneMoreBooked(d, e, receiver.value) && e.inFlight == d.inFlight + {row.value.id})
      && (job.None? ==> e.counts == d.counts && e.inFlight == d.inFlight)
      && e.marked == d.marked
  {
    if receiver.Some? { DispatchIsExact(d, receiver.value, at, max); }
  }

  /**
   * A deferred send gives its place back exactly when it fails, marks its goal run exactly when it
   * and the marker succeed, and releases the claim in any case.
   */
  lemma SettleIsExact(d: Desk, job: Job, sendOk: bool, markOk: bool, max: nat)
    requires DeskOk(d, max)
    ensures var e := Settle(d, job, sendOk, markOk);
      && (forall key :: Count(e, key) ==
            if !sendOk && key == job.countKey && Count(d, key) > 0 then Count(d, key) - 1 else Count(d, key))
      && (forall key :: key in e.slots <==> Count(e, key) > 0)
      && (forall key :: key in e.slots ==> key in d.slots && e.slots[key] == d.slots[key])
      && (forall run :: run in e.marked <==> run in d.marked || (job.gate2 == Some(run) && sendOk && markOk))
      && (forall run :: run in e.inFlight <==> run in d.inFlight && job.gate2 != Some(run))
  {
  }

  /**
   * A slot clear drops exactly the entries that were booked for the top slot, if that is the one
   * cleared, and those whose key is a cleared receiver, a colon and anything.
   */
  lemma ClearIsExact(d: Desk, top: bool, receivers: seq<string>, key: string, max: nat)
    requires DeskOk(d, max)
    ensures var e := ClearSlot(d, top, receivers);
      && (key in e.counts <==>
            && key in d.counts && !(top && d.slots[key] == "top")
            && forall r :: r in receivers && r != "" ==> !(|r| < |key| && key[..|r|] == r && key[|r|] == ':'))
      && (key in e.counts ==> e.counts[key] == d.counts[key])
      && (key in e.slots <==> key in e.counts)
      && (key in e.slots ==> e.slots[key] == d.slots[key])
      && e.inFlight == d.inFlight && e.marked == d.marked
  {
    forall r ensures Owns(r, key) <==> r != "" && |r| < |key| && key[..|r|] == r && key[|r|] == ':' {
      if r + ":" <= key { assert key[..|r|] == r && key[|r|] == ':'; }
      if |r| < |key| && key[..|r|] == r && key[|r|] == ':' { assert key[..|r| + 1] == r + ":"; }
    }
    if key in d.counts && Concerns(top, receivers, key, d.slots[key]) && !(top && d.slots[key] == "top") {
      var i :| 0 <= i < |receivers| && Owns(receivers[i], key);
      assert receivers[i] in receivers;
    }
  }

  // ---------------------------------------------------------------- runs

  /**
   * A run of the dispatcher over any number of processes. `jobs` is every send ever scheduled,
   * `settled` those whose body has run or whose process has ended, `stale` those scheduled before
   * their count was last cleared. `sent` counts the sends handed over by jobs that are not stale
   * since the last clear or restart, `lost` the reservations that a
   * failing stale job took from its successors. `delivered` and `unmarked` count, per goal run,
   * the reviews sent and the sent reviews whose marker could not be written.
   */
  datatype World = World(desk: Desk, jobs: seq<Job>, settled: set<nat>, stale: set<nat>, sent: map<string, nat>,
                         lost: map<string, nat>, delivered: map<string, nat>, unmarked: map<string, nat>)

  /** `sendOk` says that handing the review over did not throw. */
  datatype Step =
    | Harvest(row: Option<RunRow>, receiver: Option<Receiver>, suppressed: bool, at: Surroundings)
    | Gate2(row: Option<RunRow>, receiver: Option<Receiver>, taskFound: bool, readable: bool, at: Surroundings)
    | Fire(job: nat, sendOk: bool, markOk: bool)
    | Clear(top: bool, prefixes: seq<string>)
    | Restart

  const EMPTY := World(Desk(map[], map[], {}, {}), [], {}, {}, map[], map[], map[], map[])

  function At(m: map<string, nat>, key: string): nat {
    if key in m then m[key] else 0
  }

  function Add(m: map<string, nat>, key: string, when: bool): (r: map<string, nat>)
    ensures forall k :: At(r, k) == At(m, k) + if when && k == key then 1 else 0
  {
    if when then m[key := At(m, key) + 1] else m
  }

  function Scheduled(w: World, d: Desk, job: Option<Job>): World {
    w.(desk := d, jobs := if job.Some? then w.jobs + [job.value] else w.jobs)
  }

  predicate Fires(w: World, i: nat) {
    i < |w.jobs| && i !in w.settled
  }

  /** A stale job fails while a later reservation of its key is on the books. */
  predicate Steals(w: World, i: nat, sendOk: bool) {
    Fires(w, i) && !sendOk && i in w.stale && Count(w.desk, w.jobs[i].countKey) > 0
  }

  function FireJob(w: World, i: nat, sendOk: bool, markOk: bool): World {
    if !Fires(w, i) then w
    else
      var job := w.jobs[i];
      var goal := job.gate2.Some? && sendOk;
      var run := if job.gate2.Some? then job.gate2.value else "";
      w.(desk := Settle(w.desk, job, sendOk, markOk), settled := w.settled + {i},
         sent := Add(w.sent, job.countKey, sendOk && i !in w.stale),
         lost := Add(w.lost, job.countKey, Steals(w, i, sendOk)),
         delivered := Add(w.delivered, run, goal), unmarked := Add(w.unmarked, run, goal && !markOk))
  }

  function JobsOf(jobs: seq<Job>, keys: set<string>): set<nat> {
    set i: nat | i < |jobs| && jobs[i].countKey in keys
  }

  function ClearWorld(w: World, top: bool, prefixes: seq<string>): World {
    var gone := ClearedKeys(w.desk, top, prefixes);
    w.(desk := ClearSlot(w.desk, top, prefixes),
       stale := w.stale + JobsOf(w.jobs, gone),
       sent := w.sent - gone, lost := w.lost - gone)
  }

  /** The sends still scheduled. */
  function Open(w: World): set<nat> {
    set i: nat | i < |w.jobs| && i !in w.settled
  }

  /** A new process: the maps, the claims and the scheduled sends are gone, the markers are not. */
  function RestartWorld(w: World): World {
    w.(desk := Desk(map[], map[], {}, w.desk.marked), settled := w.settled + Open(w), sent := map[], lost := map[])
  }

  function Take(w: World, s: Step, max: nat): World {
    match s
    case Harvest(row, receiver, suppressed, at) =>
      var (d, job) := DispatchHarvest(w.desk, row, receiver, suppressed, at, max);
      Scheduled(w, d, job)
    case Gate2(row, receiver, taskFound, readable, at) =>
      var (d, job) := DispatchGate2(w.desk, row, receiver, taskFound, readable, at, max);
      Scheduled(w, d, job)
    case Fire(i, sendOk, markOk) => FireJob(w, i, sendOk, markOk)
    case Clear(top, prefixes) => ClearWorld(w, top, prefixes)
    case Restart => RestartWorld(w)
  }

  function RunFrom(w: World, steps: seq<Step>, max: nat): World {
    if steps == [] then w
    else Take(RunFrom(w, steps[..|steps| - 1], max), steps[|steps| - 1], max)
  }

  // ---------------------------------------------------------------- the books of one key

  /** The scheduled sends of a key that its current count has to answer for. */
  function Fresh(w: World, key: string): set<nat> {
    set i: nat | i < |w.jobs| && i !in w.settled && i !in w.stale && w.jobs[i].countKey == key
  }

  /** Every send of a key that is still scheduled. */
  function Waiting(w: World, key: string): set<nat> {
    set i: nat | i < |w.jobs| && i !in w.settled && w.jobs[i].countKey == key
  }

  /** The count answers for the sends delivered and the sends still scheduled since the last clear or restart. */
  predicate Conserved(w: World, key: string) {
    Count(w.desk, key) == At(w.sent, key) + |Fresh(w, key)|
  }

  /** The count never exceeds them, and falls short of them only by what stale failures took. */
  predicate Covered(w: World, key: string) {
    && Count(w.desk, key) <= At(w.sent, key) + |Fresh(w, key)|
    && At(w.sent, key) + |Fresh(w, key)| <= Count(w.desk, key) + At(w.lost, key)
  }

  /** The goal jobs that hold a claim. */
  predicate Holds(w: World, i: nat, run: string) {
    i < |w.jobs| && i !in w.settled && w.jobs[i].gate2 == Some(run)
  }

  ghost predicate Held(w: World, run: string) {
    exists i: nat :: Holds(w, i, run)
  }

  /** A run is claimed exactly while one deferred review of it is unsettled. */
  ghost predicate ClaimsOk(w: World) {
    && (forall run :: run in w.desk.inFlight <==> Held(w, run))
    && (forall i: nat, j: nat, run :: Holds(w, i, run) && Holds(w, j, run) ==> i == j)
  }

  ghost predicate WorldOk(w: World, max: nat) {
    && DeskOk(w.desk, max)
    && (forall i: nat :: i in w.settled || i in w.stale ==> i < |w.jobs|)
    && (forall key :: Covered(w, key))
    && ClaimsOk(w)
  }

  // ---------------------------------------------------------------- one step

  /** What scheduling does to the desk: nothing, or one more reservation for one job. */
  ghost predicate Books(d: Desk, e: Desk, job: Option<Job>) {
    forall key :: Count(e, key) == Count(d, key) + if job.Some? && job.value.countKey == key then 1 else 0
  }

  lemma DispatchBooks(d: Desk, r: Receiver, at: Surroundings, max: nat)
    requires DeskOk(d, max)
    ensures var (e, outcome) := Dispatch(d, r, at, max);
      && DeskOk(e, max)
      && e.inFlight == d.inFlight && e.marked == d.marked
      && (forall key :: Count(e, key) == Count(d, key) + if outcome.Dispatched? && r.countKey == key then 1 else 0)
  {}

  lemma SchedulingKeepsCovered(w: World, d: Desk, job: Option<Job>, key: string)
    requires forall i: nat :: i in w.settled || i in w.stale ==> i < |w.jobs|
    requires Books(w.desk, d, job)
    ensures Covered(Scheduled(w, d, job), key) <==> Covered(w, key)
    ensures Conserved(Scheduled(w, d, job), key) <==> Conserved(w, key)
  {
    var v := Scheduled(w, d, job);
    if job.Some? && job.value.countKey == key {
      assert Fresh(v, key) == Fresh(w, key) + {|w.jobs|};
    } else {
      assert Fresh(v, key) == Fresh(w, key);
    }
  }

  lemma RollbackBooks(d: Desk, key: string, max: nat)
    requires DeskOk(d, max)
    ensures DeskOk(Rollback(d, key), max)
    ensures forall k ::
      Count(Rollback(d, key), k) == if k == key && Count(d, k) > 0 then Count(d, k) - 1 else Count(d, k)
  {}

  lemma FreshAfterFiring(w: World, i: nat, sendOk: bool, markOk: bool, key: string)
    requires Fires(w, i)
    ensures |Fresh(FireJob(w, i, sendOk, markOk), key)|
      == |Fresh(w, key)| - if w.jobs[i].countKey == key && i !in w.stale then 1 else 0
  {
    var v := FireJob(w, i, sendOk, markOk);
    if w.jobs[i].countKey == key && i !in w.stale {
      assert Fresh(w, key) == Fresh(v, key) + {i};
      assert i !in Fresh(v, key);
    } else {
      assert Fresh(v, key) == Fresh(w, key);
    }
  }

  lemma CountAfterFiring(w: World, i: nat, sendOk: bool, markOk: bool, max: nat, key: string)
    requires DeskOk(w.desk, max) && Fires(w, i)
    ensures var v := FireJob(w, i, sendOk, markOk);
      && DeskOk(v.desk, max)
      && Count(v.desk, key) == Count(w.desk, key)
           - (if !sendOk && w.jobs[i].countKey == key && Count(w.desk, key) > 0 then 1 else 0)
      && At(v.sent, key) == At(w.sent, key) + (if sendOk && i !in w.stale && w.jobs[i].countKey == key then 1 else 0)
      && At(v.lost, key) == At(w.lost, key) + (if Steals(w, i, sendOk) && w.jobs[i].countKey == key then 1 else 0)
  {
    RollbackBooks(w.desk, w.jobs[i].countKey, max);
  }

  /**
   * A settled send keeps the books of its key exact if they were, except in one case: a send
   * scheduled before the last clear fails and takes back a reservation that is not its own.
   */
  lemma FiringBooks(w: World, i: nat, sendOk: bool, markOk: bool, max: nat, key: string)
    requires DeskOk(w.desk, max) && Covered(w, key) && Fires(w, i)
    ensures var v := FireJob(w, i, sendOk, markOk);
      && DeskOk(v.desk, max)
      && Covered(v, key)
      && (Conserved(w, key) ==> (Conserved(v, key) <==> !(Steals(w, i, sendOk) && w.jobs[i].countKey == key)))
  {
    FreshAfterFiring(w, i, sendOk, markOk, key);
    CountAfterFiring(w, i, sendOk, markOk, max, key);
  }

  lemma ClearingBooks(w: World, top: bool, prefixes: seq<string>, max: nat, key: string)
    requires WorldOk(w, max)
    ensures var v := ClearWorld(w, top, prefixes);
      && DeskOk(v.desk, max)
      && Covered(v, key)
      && (Conserved(w, key) ==> Conserved(v, key))
  {
    var v := ClearWorld(w, top, prefixes);
    assert Covered(w, key);
    if key in ClearedKeys(w.desk, top, prefixes) {
      assert Fresh(v, key) == {};
    } else {
      assert Fresh(v, key) == Fresh(w, key);
    }
  }

  /** Scheduling without a goal job, or for a run that nobody holds, keeps the claims exact. */
  lemma SchedulingKeepsClaims(w: World, d: Desk, job: Option<Job>)
    requires ClaimsOk(w) && forall i: nat :: i in w.settled ==> i < |w.jobs|
    requires job.Some? && job.value.gate2.Some? ==>
      job.value.gate2.value !in w.desk.inFlight && d.inFlight == w.desk.inFlight + {job.value.gate2.value}
    requires !(job.Some? && job.value.gate2.Some?) ==> d.inFlight == w.desk.inFlight
    ensures ClaimsOk(Scheduled(w, d, job))
  {
    var v := Scheduled(w, d, job);
    var n := |w.jobs|;
    assert forall i: nat, run :: Holds(w, i, run) ==> Holds(v, i, run);
    assert forall i: nat, run :: Holds(v, i, run) && i < n ==> Holds(w, i, run);
    forall run ensures run in v.desk.inFlight <==> Held(v, run) {
      if job.Some? && job.value.gate2 == Some(run) { assert Holds(v, n, run); }
    }
  }

  lemma FiringKeepsClaims(w: World, i: nat, sendOk: bool, markOk: bool)
    requires ClaimsOk(w) && Fires(w, i)
    ensures ClaimsOk(FireJob(w, i, sendOk, markOk))
  {
    var v := FireJob(w, i, sendOk, markOk);
    assert forall j: nat, run :: Holds(v, j, run) <==> Holds(w, j, run) && j != i;
    assert w.jobs[i].gate2.Some? ==> Holds(w, i, w.jobs[i].gate2.value);
  }

  lemma ClearingKeepsClaims(w: World, top: bool, prefixes: seq<string>)
    requires ClaimsOk(w)
    ensures ClaimsOk(ClearWorld(w, top, prefixes))
  {
    var v := ClearWorld(w, top, prefixes);
    assert forall j: nat, run :: Holds(v, j, run) <==> Holds(w, j, run);
  }

  lemma HarvestBooks(d: Desk, row: Option<RunRow>, receiver: Option<Receiver>, suppressed: bool, at: Surroundings,
                     max: nat)
    requires DeskOk(d, max)
    ensures var (e, job) := DispatchHarvest(d, row, receiver, suppressed, at, max);
      DeskOk(e, max) && Books(d, e, job) && e.inFlight == d.inFlight && e.marked == d.marked
      && (job.Some? ==> job.value.gate2.None?)
  {
    if HarvestReviewed(row, receiver, suppressed) { DispatchBooks(d, receiver.value, at, max); }
  }

  lemma Gate2Books(d: Desk, row: Option<RunRow>, receiver: Option<Receiver>, taskFound: bool, readable: bool,
                   at: Surroundings, max: nat)
    requires DeskOk(d, max)
    ensures var (e, job) := DispatchGate2(d, row, receiver, taskFound, readable, at, max);
      && DeskOk(e, max) && Books(d, e, job) && e.marked == d.marked
      && (job.None? ==> e.inFlight == d.inFlight)
      && (job.Some? ==>
            && row.Some? && job.value.gate2 == Some(row.value.id)
            && row.value.id !in d.inFlight && e.inFlight == d.inFlight + {row.value.id})
  {
    if Gate2Starts(d, row, receiver, taskFound, readable) { DispatchBooks(d, receiver.value, at, max); }
  }

  lemma SchedulingKeepsWorld(w: World, d: Desk, job: Option<Job>, max: nat)
    requires WorldOk(w, max) && DeskOk(d, max) && Books(w.desk, d, job) && ClaimsOk(Scheduled(w, d, job))
    ensures WorldOk(Scheduled(w, d, job), max)
  {
    forall key ensures Covered(Scheduled(w, d, job), key) {
      assert Covered(w, key);
      SchedulingKeepsCovered(w, d, job, key);
    }
  }

  lemma FiringKeepsWorld(w: World, i: nat, sendOk: bool, markOk: bool, max: nat)
    requires WorldOk(w, max) && Fires(w, i)
    ensures WorldOk(FireJob(w, i, sendOk, markOk), max)
  {
    forall key ensures Covered(FireJob(w, i, sendOk, markOk), key) {
      assert Covered(w, key);
      FiringBooks(w, i, sendOk, markOk, max, key);
    }
    FiringKeepsClaims(w, i, sendOk, markOk);
  }

  lemma ClearingKeepsWorld(w: World, top: bool, prefixes: seq<string>, max: nat)
    requires WorldOk(w, max)
    ensures WorldOk(ClearWorld(w, top, prefixes), max)
  {
    forall key ensures Covered(ClearWorld(w, top, prefixes), key) {
      ClearingBooks(w, top, prefixes, max, key);
    }
    ClearingBooks(w, top, prefixes, max, "");
    ClearingKeepsClaims(w, top, prefixes);
  }

  lemma RestartKeepsWorld(w: World, max: nat)
    requires WorldOk(w, max)
    ensures WorldOk(RestartWorld(w), max)
    ensures forall key :: Conserved(RestartWorld(w), key) && Waiting(RestartWorld(w), key) == {}
  {
    var v := RestartWorld(w);
    forall key ensures Covered(v, key) && Conserved(v, key) && Waiting(v, key) == {} {
      assert Fresh(v, key) == {} && Waiting(v, key) == {};
    }
    assert forall i: nat, run :: !Holds(v, i, run);
  }

  /** Every step keeps the maps in step, the books covered and the claims exact. */
  lemma StepKeepsWorld(w: World, s: Step, max: nat)
    requires WorldOk(w, max)
    ensures WorldOk(Take(w, s, max), max)
  {
    match s
    case Harvest(row, receiver, suppressed, at) =>
      var (d, job) := DispatchHarvest(w.desk, row, receiver, suppressed, at, max);
      HarvestBooks(w.desk, row, receiver, suppressed, at, max);
      SchedulingKeepsClaims(w, d, job);
      SchedulingKeepsWorld(w, d, job, max);
    case Gate2(row, receiver, taskFound, readable, at) =>
      var (d, job) := DispatchGate2(w.desk, row, receiver, taskFound, readable, at, max);
      Gate2Books(w.desk, row, receiver, taskFound, readable, at, max);
      SchedulingKeepsClaims(w, d, job);
      SchedulingKeepsWorld(w, d, job, max);
    case Fire(i, sendOk, markOk) =>
      if Fires(w, i) { FiringKeepsWorld(w, i, sendOk, markOk, max); }
    case Clear(top, prefixes) =>
      ClearingKeepsWorld(w, top, prefixes, max);
    case Restart =>
      RestartKeepsWorld(w, max);
  }

  lemma {:induction false} RunKeepsWorld(w: World, steps: seq<Step>, max: nat)
    requires WorldOk(w, max)
    ensures WorldOk(RunFrom(w, steps, max), max)
  {
    if steps != [] {
      RunKeepsWorld(w, steps[..|steps| - 1], max);
      StepKeepsWorld(RunFrom(w, steps[..|steps| - 1], max), steps[|steps| - 1], max);
    }
  }

  // ---------------------------------------------------------------- whole runs

  /** The state of a dispatcher that started empty and went through the steps. */
  function Reached(steps: seq<Step>, max: nat): World {
    RunFrom(EMPTY, steps, max)
  }

  lemma ReachedIsOk(steps: seq<Step>, max: nat)
    ensures WorldOk(Reached(steps, max), max)
  {
    RunKeepsWorld(EMPTY, steps, max);
  }

  /** On every run stored counts lie between one and the maximum, and the two maps have the same keys. */
  lemma CountsStayInRange(steps: seq<Step>, max: nat)
    ensures DeskOk(Reached(steps, max).desk, max)
  {
    ReachedIsOk(steps, max);
  }

  /** On every run a goal run is in the in-flight set exactly while one deferred review of it is unsettled. */
  lemma InFlightIsOneDeferredReview(steps: seq<Step>, run: string, max: nat)
    ensures var w := Reached(steps, max);
      && (run in w.desk.inFlight <==> exists i: nat :: Holds(w, i, run))
      && (forall i: nat, j: nat :: Holds(w, i, run) && Holds(w, j, run) ==> i == j)
  {
    ReachedIsOk(steps, max);
    var w := Reached(steps, max);
    assert run in w.desk.inFlight <==> Held(w, run);
  }

  /** The breaker lets through at most the maximum, plus what failing stale sends gave back. */
  lemma BreakerBoundsSends(steps: seq<Step>, key: string, max: nat)
    ensures var w := Reached(steps, max);
      At(w.sent, key) + |Fresh(w, key)| <= max + At(w.lost, key)
  {
    ReachedIsOk(steps, max);
    assert Covered(Reached(steps, max), key);
  }

  /** The one step that can put the books of a key out of balance. */
  predicate Unbalances(w: World, s: Step, key: string) {
    s.Fire? && Steals(w, s.job, s.sendOk) && w.jobs[s.job].countKey == key
  }

  /** Books that balance go on balancing exactly when the step is not such a failure. */
  lemma ConservationStep(w: World, s: Step, key: string, max: nat)
    requires WorldOk(w, max) && Conserved(w, key)
    ensures Conserved(Take(w, s, max), key) <==> !Unbalances(w, s, key)
  {
    match s
    case Harvest(row, receiver, suppressed, at) =>
      HarvestBooks(w.desk, row, receiver, suppressed, at, max);
      var (d, job) := DispatchHarvest(w.desk, row, receiver, suppressed, at, max);
      SchedulingKeepsCovered(w, d, job, key);
    case Gate2(row, receiver, taskFound, readable, at) =>
      Gate2Books(w.desk, row, receiver, taskFound, readable, at, max);
      var (d, job) := DispatchGate2(w.desk, row, receiver, taskFound, readable, at, max);
      SchedulingKeepsCovered(w, d, job, key);
    case Fire(i, sendOk, markOk) =>
      assert Covered(w, key);
      if Fires(w, i) { FiringBooks(w, i, sendOk, markOk, max, key); }
    case Clear(top, prefixes) =>
      ClearingBooks(w, top, prefixes, max, key);
    case Restart =>
      RestartKeepsWorld(w, max);
  }

  /** Some step of the run puts the books of the key out of balance. */
  predicate Unbalanced(steps: seq<Step>, key: string, max: nat) {
    exists n :: 0 <= n < |steps| && Unbalances(Reached(steps[..n], max), steps[n], key)
  }

  predicate ConservedThroughout(steps: seq<Step>, key: string, max: nat) {
    forall n :: 0 <= n <= |steps| ==> Conserved(Reached(steps[..n], max), key)
  }

  lemma UnbalancedGrows(steps: seq<Step>, key: string, max: nat)
    requires steps != []
    ensures var front := steps[..|steps| - 1];
      Unbalanced(steps, key, max)
      <==> Unbalanced(front, key, max) || Unbalances(Reached(front, max), steps[|steps| - 1], key)
  {
    var front := steps[..|steps| - 1];
    assert forall m :: 0 <= m <= |front| ==> front[..m] == steps[..m];
  }

  lemma ConservedGrows(steps: seq<Step>, key: string, max: nat)
    requires steps != []
    ensures var front := steps[..|steps| - 1];
      ConservedThroughout(steps, key, max)
      <==> ConservedThroughout(front, key, max) && Conserved(Reached(steps, max), key)
  {
    var front := steps[..|steps| - 1];
    assert forall m :: 0 <= m <= |front| ==> front[..m] == steps[..m];
    assert steps[..|steps|] == steps;
  }

  /**
   * Along a run the count of a key equals, at every point, the sends delivered and the sends
   * still scheduled since its last clear, if and only if no send scheduled before a clear
   * fails while a later one is on the books.
   */
  lemma {:induction false} BreakerConservation(steps: seq<Step>, key: string, max: nat)
    ensures ConservedThroughout(steps, key, max) <==> !Unbalanced(steps, key, max)
  {
    if steps == [] {
      assert Fresh(EMPTY, key) == {};
      assert steps[..0] == [];
    } else {
      var n := |steps| - 1;
      var front := steps[..n];
      BreakerConservation(front, key, max);
      UnbalancedGrows(steps, key, max);
      ConservedGrows(steps, key, max);
      if ConservedThroughout(front, key, max) {
        assert front[..n] == front;
        ReachedIsOk(front, max);
        ConservationStep(Reached(front, max), steps[n], key, max);
      }
    }
  }

  /** A clear leaves no scheduled send of the key behind. */
  predicate QuietClear(w: World, s: Step, key: string) {
    s.Clear? && key in ClearedKeys(w.desk, s.top, s.prefixes) ==> Waiting(w, key) == {}
  }

  predicate QuietClears(steps: seq<Step>, key: string, max: nat) {
    forall n :: 0 <= n < |steps| ==> QuietClear(Reached(steps[..n], max), steps[n], key)
  }

  lemma {:induction false} NothingStaleWaits(steps: seq<Step>, key: string, max: nat)
    requires QuietClears(steps, key, max)
    ensures Fresh(Reached(steps, max), key) == Waiting(Reached(steps, max), key)
  {
    if steps != [] {
      var n := |steps| - 1;
      var front := steps[..n];
      assert forall m :: 0 <= m < n ==> front[..m] == steps[..m];
      assert forall m :: 0 <= m < n ==> QuietClear(Reached(steps[..m], max), steps[m], key);
      NothingStaleWaits(front, key, max);
      ReachedIsOk(front, max);
      StepKeepsFresh(Reached(front, max), steps[n], key, max);
    }
  }

  lemma StepKeepsFresh(w: World, s: Step, key: string, max: nat)
    requires WorldOk(w, max) && Fresh(w, key) == Waiting(w, key) && QuietClear(w, s, key)
    ensures Fresh(Take(w, s, max), key) == Waiting(Take(w, s, max), key)
  {
    if s.Clear? && key in ClearedKeys(w.desk, s.top, s.prefixes) {
      assert Waiting(Take(w, s, max), key) == Waiting(w, key);
    } else {
      StaysFresh(w, s, key, max);
    }
  }

  lemma StaysFresh(w: World, s: Step, key: string, max: nat)
    requires WorldOk(w, max) && Fresh(w, key) == Waiting(w, key)
    requires s.Clear? ==> key !in ClearedKeys(w.desk, s.top, s.prefixes)
    ensures Fresh(Take(w, s, max), key) == Waiting(Take(w, s, max), key)
  {
    var v := Take(w, s, max);
    forall i: nat | i in Waiting(v, key) ensures i in Fresh(v, key) {
      if i < |w.jobs| {
        assert i in Waiting(w, key);
        assert i in Fresh(w, key);
      }
    }
  }

  lemma BalancedWhenFresh(w: World, s: Step, key: string)
    requires Fresh(w, key) == Waiting(w, key)
    ensures !Unbalances(w, s, key)
  {
    if s.Fire? && Fires(w, s.job) && w.jobs[s.job].countKey == key {
      assert s.job in Waiting(w, key);
      assert s.job in Fresh(w, key);
    }
  }

  /**
   * When no clear of a key finds a send of it still scheduled, its count is at every point the
   * sends delivered since the last clear plus all sends still scheduled, so both together never
   * exceed the maximum.
   */
  lemma QuietClearsConserve(steps: seq<Step>, key: string, max: nat)
    requires QuietClears(steps, key, max)
    ensures var w := Reached(steps, max);
      && Count(w.desk, key) == At(w.sent, key) + |Waiting(w, key)|
      && At(w.sent, key) + |Waiting(w, key)| <= max
  {
    forall n | 0 <= n < |steps| ensures !Unbalances(Reached(steps[..n], max), steps[n], key) {
      var front := steps[..n];
      forall m | 0 <= m < n ensures QuietClear(Reached(front[..m], max), front[m], key) {
        assert front[..m] == steps[..m];
      }
      NothingStaleWaits(front, key, max);
      BalancedWhenFresh(Reached(front, max), steps[n], key);
    }
    BreakerConservation(steps, key, max);
    assert steps[..|steps|] == steps;
    assert Conserved(Reached(steps, max), key);
    NothingStaleWaits(steps, key, max);
    CountsStayInRange(steps, max);
  }

  lemma OneMore(steps: seq<Step>, s: Step, max: nat)
    ensures Reached(steps + [s], max) == Take(Reached(steps, max), s, max)
  {
    assert (steps + [s])[..|steps|] == steps;
  }

  /** A run of four steps, step by step. */
  lemma FourSteps(s: seq<Step>, max: nat)
    requires |s| == 4
    ensures Reached(s, max) == Take(Take(Take(Take(EMPTY, s[0], max), s[1], max), s[2], max), s[3], max)
  {
    OneMore([], s[0], max);
    OneMore([s[0]], s[1], max);
    OneMore([s[0], s[1]], s[2], max);
    OneMore([s[0], s[1], s[2]], s[3], max);
    assert s == [s[0], s[1], s[2]] + [s[3]];
    assert [s[0], s[1]] + [s[2]] == [s[0], s[1], s[2]] && [s[0]] + [s[1]] == [s[0], s[1]] && [] + [s[0]] == [s[0]];
  }

  // A slot clear between scheduling and failure loses one reservation of the next send.

  const TOP := Receiver("top", "project:p:t")
  const UP := Surroundings(true, true, true)
  const HARVESTED := RunRow("r", false, false, true, true, "")
  const STALE_FAILURE: seq<Step> := [
    Harvest(Some(HARVESTED), Some(TOP), false, UP), Clear(true, []),
    Harvest(Some(HARVESTED), Some(TOP), false, UP), Fire(0, false, true)
  ]

  /** With one send scheduled, and none failed since the clear, the count can be zero. */
  lemma StaleFailureLosesAReservation()
    ensures var w := Reached(STALE_FAILURE, 5);
      && Count(w.desk, TOP.countKey) == 0
      && 1 in Fresh(w, TOP.countKey)
      && !Conserved(w, TOP.countKey)
  {
    var s := STALE_FAILURE;
    var a := Take(EMPTY, s[0], 5);
    var b := Take(a, s[1], 5);
    var c := Take(b, s[2], 5);
    var d := Take(c, s[3], 5);
    FourSteps(s, 5);
    assert Count(a.desk, TOP.countKey) == 1;
    assert TOP.countKey in ClearedKeys(a.desk, true, []);
    assert Count(b.desk, TOP.countKey) == 0 && 0 in b.stale;
    assert Count(c.desk, TOP.countKey) == 1 && c.jobs[1].countKey == TOP.countKey;
    assert Count(d.desk, TOP.countKey) == 0 && 1 in Fresh(d, TOP.countKey);
  }

  // ---------------------------------------------------------------- the durable marker

  predicate MarkersReadable(steps: seq<Step>) {
    forall n :: 0 <= n < |steps| && steps[n].Gate2? ==> steps[n].readable
  }

  /** Nobody holds a run that carries the marker, and each run was sent once per marker or missing marker. */
  ghost predicate MarkersExact(w: World) {
    && (forall run :: run in w.desk.marked ==> run !in w.desk.inFlight)
    && forall run :: At(w.delivered, run) == At(w.unmarked, run) + if run in w.desk.marked then 1 else 0
  }

  lemma FiringKeepsMarkers(w: World, i: nat, sendOk: bool, markOk: bool)
    requires ClaimsOk(w) && MarkersExact(w)
    ensures MarkersExact(FireJob(w, i, sendOk, markOk))
  {
    if Fires(w, i) && w.jobs[i].gate2.Some? {
      var run := w.jobs[i].gate2.value;
      assert Holds(w, i, run);
      assert Held(w, run);
    }
  }

  lemma StepKeepsMarkers(w: World, s: Step, max: nat)
    requires WorldOk(w, max) && MarkersExact(w) && (s.Gate2? ==> s.readable)
    ensures MarkersExact(Take(w, s, max))
  {
    match s
    case Harvest(row, receiver, suppressed, at) =>
      HarvestBooks(w.desk, row, receiver, suppressed, at, max);
    case Gate2(row, receiver, taskFound, readable, at) =>
      Gate2Books(w.desk, row, receiver, taskFound, readable, at, max);
    case Fire(i, sendOk, markOk) =>
      FiringKeepsMarkers(w, i, sendOk, markOk);
    case Clear(top, prefixes) =>
    case Restart =>
  }

  lemma {:induction false} RunKeepsMarkers(steps: seq<Step>, max: nat)
    requires MarkersReadable(steps)
    ensures MarkersExact(Reached(steps, max))
  {
    if steps != [] {
      var front := steps[..|steps| - 1];
      assert forall n :: 0 <= n < |front| ==> front[n] == steps[n];
      RunKeepsMarkers(front, max);
      ReachedIsOk(front, max);
      StepKeepsMarkers(Reached(front, max), steps[|steps| - 1], max);
    }
  }

  /**
   * While markers can be read, a goal run is reviewed once per marker that could not be
   * written, and once more when the marker is written: never again after that.
   */
  lemma ReviewedOncePerMarker(steps: seq<Step>, run: string, max: nat)
    requires MarkersReadable(steps)
    ensures var w := Reached(steps, max);
      At(w.delivered, run) == At(w.unmarked, run) + if run in w.desk.marked then 1 else 0
  {
    RunKeepsMarkers(steps, max);
  }

  lemma MarkedStepSendsNothing(w: World, s: Step, run: string, max: nat)
    requires WorldOk(w, max) && run in w.desk.marked && run !in w.desk.inFlight && (s.Gate2? ==> s.readable)
    ensures var v := Take(w, s, max);
      run in v.desk.marked && run !in v.desk.inFlight && At(v.delivered, run) == At(w.delivered, run)
  {
    match s
    case Harvest(row, receiver, suppressed, at) =>
      HarvestBooks(w.desk, row, receiver, suppressed, at, max);
    case Gate2(row, receiver, taskFound, readable, at) =>
      Gate2Books(w.desk, row, receiver, taskFound, readable, at, max);
    case Fire(i, sendOk, markOk) =>
      if Fires(w, i) && w.jobs[i].gate2 == Some(run) {
        assert Holds(w, i, run);
        assert Held(w, run);
      }
    case Clear(top, prefixes) =>
    case Restart =>
  }

  /** Once its marker is stored a run is never reviewed again, whatever follows. */
  lemma {:induction false} MarkedIsNeverSentAgain(w: World, steps: seq<Step>, run: string, max: nat)
    requires WorldOk(w, max) && MarkersExact(w) && run in w.desk.marked && MarkersReadable(steps)
    ensures var v := RunFrom(w, steps, max);
      && WorldOk(v, max) && run in v.desk.marked && run !in v.desk.inFlight
      && At(v.delivered, run) == At(w.delivered, run)
  {
    if steps != [] {
      var front := steps[..|steps| - 1];
      assert forall n :: 0 <= n < |front| ==> front[n] == steps[n];
      MarkedIsNeverSentAgain(w, front, run, max);
      RunKeepsWorld(w, front, max);
      StepKeepsWorld(RunFrom(w, front, max), steps[|steps| - 1], max);
      MarkedStepSendsNothing(RunFrom(w, front, max), steps[|steps| - 1], run, max);
    }
  }

  /** A dispatch of the run that passes every other guard while its marker cannot be read. */
  predicate UnreadDispatch(w: World, s: Step, run: string, max: nat) {
    && s.Gate2? && !s.readable
    && Reviewable(s.row) && s.row.value.id == run && run !in w.desk.inFlight
    && s.receiver.Some? && s.taskFound
    && s.at.managerActive && s.at.buildOk && s.at.deferOk && Count(w.desk, s.receiver.value.countKey) < max
  }

  /** A marked run is scheduled again by exactly such a dispatch: an unread marker is the only gap. */
  lemma OnlyAnUnreadMarkerReschedules(w: World, s: Step, run: string, max: nat)
    requires WorldOk(w, max) && run in w.desk.marked && run !in w.desk.inFlight
    ensures run in Take(w, s, max).desk.inFlight <==> UnreadDispatch(w, s, run, max)
  {
    match s
    case Harvest(row, receiver, suppressed, at) =>
      HarvestBooks(w.desk, row, receiver, suppressed, at, max);
    case Gate2(row, receiver, taskFound, readable, at) =>
      Gate2Books(w.desk, row, receiver, taskFound, readable, at, max);
    case Fire(i, sendOk, markOk) =>
    case Clear(top, prefixes) =>
    case Restart =>
  }

  /** A review of the run is delivered. */
  predicate Delivers(w: World, s: Step, run: string) {
    s.Fire? && s.sendOk && Fires(w, s.job) && w.jobs[s.job].gate2 == Some(run)
  }

  /** What only grows along a run. */
  predicate Grown(w: World, v: World, run: string) {
    && |w.jobs| <= |v.jobs| && v.jobs[..|w.jobs|] == w.jobs
    && w.settled <= v.settled && w.desk.marked <= v.desk.marked
    && At(w.delivered, run) <= At(v.delivered, run)
  }

  lemma StepGrows(w: World, s: Step, run: string, max: nat)
    requires DeskOk(w.desk, max)
    ensures Grown(w, Take(w, s, max), run)
  {
    match s
    case Harvest(row, receiver, suppressed, at) =>
      HarvestBooks(w.desk, row, receiver, suppressed, at, max);
    case Gate2(row, receiver, taskFound, readable, at) =>
      Gate2Books(w.desk, row, receiver, taskFound, readable, at, max);
    case Fire(i, sendOk, markOk) =>
    case Clear(top, prefixes) =>
    case Restart =>
  }

  lemma {:induction false} RunGrows(w: World, steps: seq<Step>, a: nat, b: nat, run: string, max: nat)
    requires WorldOk(w, max) && a <= b <= |steps|
    ensures Grown(RunFrom(w, steps[..a], max), RunFrom(w, steps[..b], max), run)
    decreases b
  {
    if a < b {
      RunGrows(w, steps, a, b - 1, run, max);
      assert steps[..b][..b - 1] == steps[..b - 1];
      RunKeepsWorld(w, steps[..b - 1], max);
      StepGrows(RunFrom(w, steps[..b - 1], max), steps[b - 1], run, max);
    }
  }

  /** Step `n` schedules job `i` for the marked run, and its marker was not read. */
  predicate Reschedules(w: World, steps: seq<Step>, n: nat, i: nat, run: string, max: nat) {
    && n < |steps| && UnreadDispatch(RunFrom(w, steps[..n], max), steps[n], run, max)
    && |RunFrom(w, steps[..n], max).jobs| == i
  }

  lemma {:induction false} NewJobsAreUnread(w: World, steps: seq<Step>, i: nat, run: string, max: nat) returns (n: nat)
    requires WorldOk(w, max) && run in w.desk.marked
    requires |w.jobs| <= i < |RunFrom(w, steps, max).jobs| && RunFrom(w, steps, max).jobs[i].gate2 == Some(run)
    ensures Reschedules(w, steps, n, i, run, max)
  {
    var last := |steps| - 1;
    var front := steps[..last];
    var before := RunFrom(w, front, max);
    RunKeepsWorld(w, front, max);
    StepGrows(before, steps[last], run, max);
    if i < |before.jobs| {
      assert RunFrom(w, steps, max).jobs[..|before.jobs|][i] == before.jobs[i];
      n := NewJobsAreUnread(w, front, i, run, max);
      assert front[..n] == steps[..n];
    } else {
      RunGrows(w, front, 0, last, run, max);
      assert front[..0] == [] && front[..last] == front;
      n := last;
    }
  }

  /** A dispatch past an unread marker, whose deferred send then goes out. */
  predicate Resends(w: World, steps: seq<Step>, n: nat, m: nat, run: string, max: nat) {
    && n < m < |steps| && steps[m].Fire?
    && Reschedules(w, steps, n, steps[m].job, run, max)
    && steps[m].sendOk && Fires(RunFrom(w, steps[..m], max), steps[m].job)
  }

  lemma UnreadSchedules(w: World, s: Step, run: string, max: nat)
    requires UnreadDispatch(w, s, run, max)
    ensures |Take(w, s, max).jobs| == |w.jobs| + 1 && Take(w, s, max).jobs[|w.jobs|].gate2 == Some(run)
  {}

  lemma TakeNext(w: World, steps: seq<Step>, n: nat, max: nat)
    requires n < |steps|
    ensures RunFrom(w, steps[..n + 1], max) == Take(RunFrom(w, steps[..n], max), steps[n], max)
  {
    assert steps[..n + 1][..n] == steps[..n];
  }

  lemma ResendDelivers(w: World, steps: seq<Step>, n: nat, m: nat, run: string, max: nat)
    requires WorldOk(w, max) && Resends(w, steps, n, m, run, max)
    ensures Delivers(RunFrom(w, steps[..m], max), steps[m], run)
  {
    var i := steps[m].job;
    TakeNext(w, steps, n, max);
    UnreadSchedules(RunFrom(w, steps[..n], max), steps[n], run, max);
    RunGrows(w, steps, n + 1, m, run, max);
  }

  lemma DeliveryCounts(w: World, steps: seq<Step>, m: nat, run: string, max: nat)
    requires WorldOk(w, max) && m < |steps| && Delivers(RunFrom(w, steps[..m], max), steps[m], run)
    ensures At(RunFrom(w, steps, max).delivered, run) > At(w.delivered, run)
  {
    TakeNext(w, steps, m, max);
    RunGrows(w, steps, 0, m, run, max);
    RunGrows(w, steps, m + 1, |steps|, run, max);
    assert steps[..0] == [] && steps[..|steps|] == steps;
  }

  lemma {:induction false} DeliveredIsResent(w: World, steps: seq<Step>, run: string, max: nat) returns (n: nat, m: nat)
    requires WorldOk(w, max) && run in w.desk.marked && run !in w.desk.inFlight
    requires At(RunFrom(w, steps, max).delivered, run) > At(w.delivered, run)
    ensures Resends(w, steps, n, m, run, max)
  {
    var last := |steps| - 1;
    var front := steps[..last];
    var before := RunFrom(w, front, max);
    if At(before.delivered, run) > At(w.delivered, run) {
      n, m := DeliveredIsResent(w, front, run, max);
      assert front[..n] == steps[..n] && front[..m] == steps[..m];
    } else {
      var i := steps[last].job;
      RunGrows(w, front, 0, last, run, max);
      assert front[..0] == [] && front[..last] == front;
      NotHeldBefore(w, before, i, run);
      n := NewJobsAreUnread(w, front, i, run, max);
      m := last;
      assert front[..n] == steps[..n];
    }
  }

  lemma NotHeldBefore(w: World, v: World, i: nat, run: string)
    requires ClaimsOk(w) && run !in w.desk.inFlight && Grown(w, v, run)
    requires Fires(v, i) && v.jobs[i].gate2 == Some(run)
    ensures i >= |w.jobs|
  {
    if i < |w.jobs| {
      assert v.jobs[..|w.jobs|][i] == w.jobs[i];
      assert Holds(w, i, run) && Held(w, run);
      assert false;
    }
  }

  /**
   * After its marker is stored a run is reviewed again in the course of any steps if and only if
   * some dispatch of it passes every guard with its marker unread and the send it defers goes out.
   */
  lemma MarkedIsSentAgainExactlyWhenUnread(w: World, steps: seq<Step>, run: string, max: nat)
    requires WorldOk(w, max) && run in w.desk.marked && run !in w.desk.inFlight
    ensures At(RunFrom(w, steps, max).delivered, run) > At(w.delivered, run)
      <==> exists n: nat, m: nat :: Resends(w, steps, n, m, run, max)
  {
    if At(RunFrom(w, steps, max).delivered, run) > At(w.delivered, run) {
      var n, m := DeliveredIsResent(w, steps, run, max);
    }
    if n: nat, m: nat :| Resends(w, steps, n, m, run, max) {
      ResendDelivers(w, steps, n, m, run, max);
      DeliveryCounts(w, steps, m, run, max);
    }
  }

  // A marker that cannot be read does not protect a run.

  const GOAL := RunRow("g", false, true, true, true, "gate2")
  const UNREADABLE: seq<Step> := [
    Gate2(Some(GOAL), Some(TOP), true, true, UP), Fire(0, true, true),
    Gate2(Some(GOAL), Some(TOP), true, false, UP), Fire(1, true, true)
  ]

  lemma UnreadableMarkerSendsTwice()
    ensures At(Reached(UNREADABLE, 5).delivered, "g") == 2 && At(Reached(UNREADABLE, 5).unmarked, "g") == 0
  {
    var s := UNREADABLE;
    var a := Take(EMPTY, s[0], 5);
    var b := Take(a, s[1], 5);
    var c := Take(b, s[2], 5);
    FourSteps(s, 5);
    assert a.jobs == [Job("project:p:t", "top", Some("g"))];
    assert At(b.delivered, "g") == 1 && "g" !in b.desk.inFlight && Count(b.desk, TOP.countKey) == 1;
    assert |c.jobs| == 2 && c.jobs[1].gate2 == Some("g") && 1 !in c.settled;
  }

  // ---------------------------------------------------------------- the dispatcher

  /** What one call of the goal-review dispatcher finds. */
  datatype Candidate = Candidate(row: Option<RunRow>, receiver: Option<Receiver>, taskFound: bool, readable: bool,
                                 at: Surroundings)

  function SweepFrom(d: Desk, found: seq<Candidate>, max: nat): (Desk, seq<Job>) {
    if found == [] then (d, [])
    else
      var (before, jobs) := SweepFrom(d, found[..|found| - 1], max);
      var c := found[|found| - 1];
      var (after, job) := DispatchGate2(before, c.row, c.receiver, c.taskFound, c.readable, c.at, max);
      (after, if job.Some? then jobs + [job.value] else jobs)
  }

  /** A sweep is a run of the dispatcher: its dispatches, one after the other. */
  lemma {:induction false} SweepIsARun(w: World, found: seq<Candidate>, steps: seq<Step>, max: nat)
    requires |steps| == |found|
    requires forall i :: 0 <= i < |found| ==>
      steps[i] == Gate2(found[i].row, found[i].receiver, found[i].taskFound, found[i].readable, found[i].at)
    ensures var v := RunFrom(w, steps, max);
      (v.desk, v.jobs) == (SweepFrom(w.desk, found, max).0, w.jobs + SweepFrom(w.desk, found, max).1)
  {
    if found != [] {
      var n := |found| - 1;
      SweepIsARun(w, found[..n], steps[..n], max);
      var c := found[n];
      assert steps[n] == Gate2(c.row, c.receiver, c.taskFound, c.readable, c.at);
      var (before, jobs) := SweepFrom(w.desk, found[..n], max);
      var (after, job) := DispatchGate2(before, c.row, c.receiver, c.taskFound, c.readable, c.at, max);
      if job.Some? { assert w.jobs + (jobs + [job.value]) == (w.jobs + jobs) + [job.value]; }
    } else {
      assert w.jobs + [] == w.jobs;
    }
  }

  class PmAutoReview {
    var autoReviewCounts: map<string, nat>
    var autoReviewCountSlots: map<string, string>
    var reviewInFlight: set<string>
    var markers: set<string>
    const autoReviewMax: nat

    function State(): Desk
      reads this
    {
      Desk(autoReviewCounts, autoReviewCountSlots, reviewInFlight, markers)
    }

    ghost predicate Valid()
      reads this
    {
      DeskOk(State(), autoReviewMax)
    }

    /** A new process finds the markers that are stored, and nothing else. */
    constructor (max: nat, stored: set<string>)
      ensures Valid() && State() == Desk(map[], map[], {}, stored) && autoReviewMax == max
    {
      autoReviewCounts, autoReviewCountSlots, reviewInFlight, markers := map[], map[], {}, stored;
      autoReviewMax := max;
    }

    method RollbackBreaker(key: string)
      requires key in autoReviewCounts ==> autoReviewCounts[key] >= 1
      modifies this`autoReviewCounts, this`autoReviewCountSlots
      ensures State() == Rollback(old(State()), key)
    {
      var stored := if key in autoReviewCounts then autoReviewCounts[key] else 1;
      var next := stored - 1;
      if next == 0 {
        autoReviewCounts := autoReviewCounts - {key};
        autoReviewCountSlots := autoReviewCountSlots - {key};
      } else {
        autoReviewCounts := autoReviewCounts[key := next];
      }
    }

    /** Reserves synchronously, then builds and schedules; either failure takes the reservation back. */
    method DispatchReview(receiver: Receiver, at: Surroundings) returns (outcome: Outcome)
      requires Valid()
      modifies this`autoReviewCounts, this`autoReviewCountSlots
      ensures Valid() && (State(), outcome) == Dispatch(old(State()), receiver, at, autoReviewMax)
    {
      DispatchBooks(State(), receiver, at, autoReviewMax);
      if !at.managerActive {
        return NoManager;
      }
      var key := receiver.countKey;
      var count := if key in autoReviewCounts then autoReviewCounts[key] else 0;
      if count >= autoReviewMax {
        return BreakerMax;
      }
      autoReviewCounts := autoReviewCounts[key := count + 1];
      autoReviewCountSlots := autoReviewCountSlots[key := receiver.slotKey];
      if !at.buildOk {
        RollbackBreaker(key);
        return BuildFailed;
      }
      if !at.deferOk {
        RollbackBreaker(key);
        return DeferFailed;
      }
      return Dispatched;
    }

    method SendPmReview(row: Option<RunRow>, receiver: Option<Receiver>, suppressed: bool, at: Surroundings)
      returns (job: Option<Job>)
      requires Valid()
      modifies this
      ensures Valid()
      ensures (State(), job) == DispatchHarvest(old(State()), row, receiver, suppressed, at, autoReviewMax)
    {
      if row.None? || row.value.isManager || row.value.goalActive || !row.value.hasProject || receiver.None? || suppressed {
        return None;
      }
      var outcome := DispatchReview(receiver.value, at);
      job := if outcome.Dispatched? then Some(Job(receiver.value.countKey, receiver.value.slotKey, None)) else None;
    }

    /** Claims the run, dispatches, and releases the claim unless a send is scheduled. */
    method DispatchGate2Review(c: Candidate) returns (job: Option<Job>)
      requires Valid()
      modifies this
      ensures Valid()
      ensures (State(), job)
        == DispatchGate2(old(State()), c.row, c.receiver, c.taskFound, c.readable, c.at, autoReviewMax)
    {
      if !Reviewable(c.row) {
        return None;
      }
      var run := c.row.value.id;
      if run in reviewInFlight || (c.readable && run in markers) || c.receiver.None? || !c.taskFound {
        return None;
      }
      reviewInFlight := reviewInFlight + {run};
      var outcome := DispatchReview(c.receiver.value, c.at);
      if outcome.Dispatched? {
        return Some(Job(c.receiver.value.countKey, c.receiver.value.slotKey, Some(run)));
      }
      reviewInFlight := reviewInFlight - {run};
      assert reviewInFlight == old(reviewInFlight) - {run};
      return None;
    }

    /** The deferred callback: sends, then marks; the claim is released on every path. */
    method RunDeferred(job: Job, sendOk: bool, markOk: bool)
      requires Valid()
      modifies this
      ensures Valid() && State() == Settle(old(State()), job, sendOk, markOk)
    {
      if sendOk {
        if job.gate2.Some? && markOk {
          markers := markers + {job.gate2.value};
        }
      } else {
        RollbackBreaker(job.countKey);
      }
      if job.gate2.Some? {
        reviewInFlight := reviewInFlight - {job.gate2.value};
      }
    }

    method ReviewSweep(found: seq<Candidate>) returns (jobs: seq<Job>)
      requires Valid()
      modifies this
      ensures Valid() && (State(), jobs) == SweepFrom(old(State()), found, autoReviewMax)
    {
      jobs := [];
      for i := 0 to |found|
        invariant Valid() && (State(), jobs) == SweepFrom(old(State()), found[..i], autoReviewMax)
      {
        assert found[..i + 1][..i] == found[..i];
        var job := DispatchGate2Review(found[i]);
        if job.Some? {
          jobs := jobs + [job.value];
        }
      }
      assert found[..|found|] == found;
    }

    method DeleteCountKeysForSlot(slot: string)
      requires Valid()
      modifies this`autoReviewCounts, this`autoReviewCountSlots
      ensures State() == Without(old(State()), InSlot(old(autoReviewCountSlots), slot))
    {
      ghost var before := State();
      var left := autoReviewCountSlots.Keys;
      while left != {}
        invariant left <= autoReviewCountSlots.Keys
        invariant LeftOver(before.slots, autoReviewCountSlots, left, InSlot(before.slots, slot))
        invariant LeftOver(before.counts, autoReviewCounts, left, InSlot(before.slots, slot))
        decreases |left|
      {
        var key :| key in left;
        left := left - {key};
        if autoReviewCountSlots[key] == slot {
          autoReviewCounts := autoReviewCounts - {key};
          autoReviewCountSlots := autoReviewCountSlots - {key};
        }
      }
      AllDone(before.slots, autoReviewCountSlots, InSlot(before.slots, slot));
      AllDone(before.counts, autoReviewCounts, InSlot(before.slots, slot));
    }

    method DeleteCountKeysForReceiver(receiver: string)
      requires Valid()
      modifies this`autoReviewCounts, this`autoReviewCountSlots
      ensures State() == Without(old(State()), OfReceiver(old(autoReviewCounts), receiver))
    {
      if receiver == "" {
        assert State() == Without(State(), {}) && OfReceiver(autoReviewCounts, receiver) == {};
        return;
      }
      ghost var before := State();
      var left := autoReviewCounts.Keys;
      while left != {}
        invariant left <= autoReviewCounts.Keys
        invariant LeftOver(before.slots, autoReviewCountSlots, left, OfReceiver(before.counts, receiver))
        invariant LeftOver(before.counts, autoReviewCounts, left, OfReceiver(before.counts, receiver))
        decreases |left|
      {
        var key :| key in left;
        left := left - {key};
        if receiver + ":" <= key {
          autoReviewCounts := autoReviewCounts - {key};
          autoReviewCountSlots := autoReviewCountSlots - {key};
        }
      }
      AllDone(before.slots, autoReviewCountSlots, OfReceiver(before.counts, receiver));
      AllDone(before.counts, autoReviewCounts, OfReceiver(before.counts, receiver));
    }

    /** The registry's slot-cleared event, with the receivers that the cleared conversation stands for. */
    method OnSlotCleared(top: bool, receivers: seq<string>)
      requires Valid()
      modifies this`autoReviewCounts, this`autoReviewCountSlots
      ensures Valid() && State() == ClearSlot(old(State()), top, receivers)
    {
      ghost var before := State();
      if top {
        DeleteCountKeysForSlot("top");
      }
      assert State() == ClearSlot(before, top, receivers[..0]);
      for i := 0 to |receivers|
        invariant Valid() && State() == ClearSlot(before, top, receivers[..i])
      {
        DeleteCountKeysForReceiver(receivers[i]);
        ClearOneMore(before, top, receivers[..i], receivers[i]);
        assert receivers[..i + 1] == receivers[..i] + [receivers[i]];
      }
      assert receivers[..|receivers|] == receivers;
    }
  }

  function InSlot(slots: map<string, string>, slot: string): set<string> {
    set key | key in slots && slots[key] == slot
  }

  function OfReceiver(counts: map<string, nat>, receiver: string): set<string> {
    set key | key in counts && Owns(receiver, key)
  }

  /** Part-way through a deletion: an entry is there unless it was to go and has been looked at. */
  ghost predicate LeftOver<T>(was: map<string, T>, now: map<string, T>, left: set<string>, gone: set<string>) {
    && (forall key :: key in now <==> key in was && (key in left || key !in gone))
    && forall key :: key in now ==> now[key] == was[key]
  }

  lemma AllDone<T>(was: map<string, T>, now: map<string, T>, gone: set<string>)
    requires LeftOver(was, now, {}, gone)
    ensures now == was - gone
  {}

  function Without(d: Desk, gone: set<string>): Desk {
    d.(counts := d.counts - gone, slots := d.slots - gone)
  }

  lemma ClearOneMore(d: Desk, top: bool, receivers: seq<string>, next: string)
    requires d.counts.Keys == d.slots.Keys
    ensures var c := ClearSlot(d, top, receivers);
      Without(c, OfReceiver(c.counts, next)) == ClearSlot(d, top, receivers + [next])
  {
    var c := ClearSlot(d, top, receivers);
    var more := receivers + [next];
    forall key | key in d.counts
      ensures Concerns(top, more, key, d.slots[key]) <==> Concerns(top, receivers, key, d.slots[key]) || Owns(next, key)
    {
      assert more[|receivers|] == next;
      assert forall i :: 0 <= i < |receivers| ==> more[i] == receivers[i];
    }
    assert ClearedKeys(d, top, more)
      == ClearedKeys(d, top, receivers) + OfReceiver(c.counts, next);
  }
}
