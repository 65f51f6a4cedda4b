/**
 * The imperative broker stays inside the protocol. Take any schedule: a worker starts, and while
 * it awaits each answer the other workers and callers take whatever steps they like. The calls
 * those steps make are the script of the worker's method, and what the method does to the ledger
 * and answers is what the interleaved run does, so every theorem of `Protocol` speaks of it.
 */
module BrokerRefinement {
  import opened Common
  import opened LedgerSpec
  import opened BrokerSteps
  import opened Protocol
  import ActionBroker

  function RunFrom(c: Config, w: World, steps: seq<Step>): World {
    if steps == [] then w else Apply(c, RunFrom(c, w, steps[..|steps| - 1]), steps[|steps| - 1])
  }

  lemma {:induction false} RunsCompose(c: Config, w: World, a: seq<Step>, b: seq<Step>)
    ensures RunFrom(c, w, a + b) == RunFrom(c, RunFrom(c, w, a), b)
  {
    if b == [] {
      assert a + b == a;
    } else {
      RunsCompose(c, w, a, b[..|b| - 1]);
      assert (a + b)[..|a + b| - 1] == a + b[..|b| - 1];
    }
  }

  lemma {:induction false} RunContinues(c: Config, before: seq<Step>, more: seq<Step>)
    ensures RunAll(c, before + more) == RunFrom(c, RunAll(c, before), more)
  {
    if more == [] {
      assert before + more == before;
    } else {
      RunContinues(c, before, more[..|more| - 1]);
      assert (before + more)[..|before + more| - 1] == before + more[..|more| - 1];
    }
  }

  lemma OneStep(c: Config, w: World, step: Step)
    ensures RunFrom(c, w, [step]) == Apply(c, w, step)
  {
    assert [step][..0] == [];
    assert RunFrom(c, w, [step][..0]) == w;
  }

  // ---------------------------------------------------------------- what others do meanwhile

  /** A step of anyone but the given worker. */
  predicate Elsewhere(step: Step, i: nat) {
    match step
    case Run(k, _) => k != i
    case Answer(k, _, _) => k != i
    case Crash(k) => k != i
    case _ => true
  }

  /** While a worker awaits an answer, others take steps; then the answer arrives. */
  datatype Turn = Turn(others: seq<Step>, reply: Reply, now: int)

  predicate Schedule(turns: seq<Turn>, i: nat) {
    forall k :: 0 <= k < |turns| ==> forall step :: step in turns[k].others ==> Elsewhere(step, i)
  }

  lemma {:induction false} OthersLeaveWorker(c: Config, w: World, steps: seq<Step>, i: nat)
    requires i < |w.workers| && forall step :: step in steps ==> Elsewhere(step, i)
    ensures i < |RunFrom(c, w, steps).workers| && RunFrom(c, w, steps).workers[i] == w.workers[i]
  {
    if steps != [] {
      OthersLeaveWorker(c, w, steps[..|steps| - 1], i);
      assert Elsewhere(steps[|steps| - 1], i);
    }
  }

  /** The ledger calls a run makes. */
  function CallsOf(c: Config, w: World, steps: seq<Step>): seq<Op> {
    if steps == [] then []
    else
      var front := steps[..|steps| - 1];
      CallsOf(c, w, front) + StepCalls(c, RunFrom(c, w, front), steps[|steps| - 1])
  }

  lemma {:induction false} RunIsCalls(c: Config, w: World, steps: seq<Step>)
    ensures RunFrom(c, w, steps).ledger == PerformAll(w.ledger, CallsOf(c, w, steps))
  {
    if steps != [] {
      var front, last := steps[..|steps| - 1], steps[|steps| - 1];
      RunIsCalls(c, w, front);
      StepIsCalls(c, RunFrom(c, w, front), last);
      CallsCompose(w.ledger, CallsOf(c, w, front), StepCalls(c, RunFrom(c, w, front), last));
    }
  }

  // ---------------------------------------------------------------- an operation as a run

  function TurnSteps(i: nat, turn: Turn): seq<Step> {
    turn.others + [Answer(i, turn.reply, turn.now)]
  }

  function StepsOf(i: nat, turns: seq<Turn>): seq<Step> {
    if turns == [] then [] else TurnSteps(i, turns[0]) + StepsOf(i, turns[1..])
  }

  /** What the method of the worker sees of a schedule: at each await the calls of the others, then the answer. */
  function ScriptOf(c: Config, w: World, i: nat, turns: seq<Turn>): seq<ActionBroker.Await>
    decreases |turns|
  {
    if turns == [] then []
    else
      [ActionBroker.Await(CallsOf(c, w, turns[0].others), turns[0].reply, turns[0].now)]
      + ScriptOf(c, RunFrom(c, w, TurnSteps(i, turns[0])), i, turns[1..])
  }

  lemma TurnIsSteps(c: Config, w: World, i: nat, turn: Turn)
    requires i < |w.workers| && forall step :: step in turn.others ==> Elsewhere(step, i)
    ensures var w1 := RunFrom(c, w, turn.others);
      && i < |w1.workers| && w1.workers[i] == w.workers[i]
      && w1.ledger == PerformAll(w.ledger, CallsOf(c, w, turn.others))
      && RunFrom(c, w, TurnSteps(i, turn)) == Apply(c, w1, Answer(i, turn.reply, turn.now))
  {
    var answer := Answer(i, turn.reply, turn.now);
    OthersLeaveWorker(c, w, turn.others, i);
    RunIsCalls(c, w, turn.others);
    RunsCompose(c, w, turn.others, [answer]);
    OneStep(c, RunFrom(c, w, turn.others), answer);
  }

  /** The turn as the method plays it: an await takes the script's calls and its answer. */
  lemma PlayOutUnfolds(c: Config, s: Ledger, worker: Worker, script: seq<ActionBroker.Await>)
    requires !worker.stage.Finished? && script != []
    ensures var s1 := PerformAll(s, script[0].env);
      var r := React(c, s1, worker, script[0].reply, script[0].now);
      ActionBroker.PlayOut(c, s, worker, script)
        == ActionBroker.PlayOut(c, PerformAll(s1, r.ops), worker.(stage := r.stage), script[1..])
  {
    var want := ActionBroker.WantOf(worker.stage);
    var s1 := PerformAll(s, script[0].env);
    if want.None? || !ActionBroker.Accepts(want.value, script[0].reply) {
      assert React(c, s1, worker, script[0].reply, script[0].now) == Reaction([], [], worker.stage);
    }
  }

  lemma AnswerIsReaction(c: Config, w: World, i: nat, reply: Reply, now: int)
    requires i < |w.workers|
    ensures var r := React(c, w.ledger, w.workers[i], reply, now);
      var w' := Apply(c, w, Answer(i, reply, now));
      && |w'.workers| == |w.workers|
      && w'.ledger == PerformAll(w.ledger, r.ops) && w'.workers[i] == w.workers[i].(stage := r.stage)
  {
  }

  lemma TurnPlaysOut(c: Config, w: World, i: nat, turns: seq<Turn>)
    requires i < |w.workers| && Schedule(turns, i) && turns != [] && !w.workers[i].stage.Finished?
    ensures var w2 := RunFrom(c, w, TurnSteps(i, turns[0]));
      && i < |w2.workers|
      && ActionBroker.PlayOut(c, w.ledger, w.workers[i], ScriptOf(c, w, i, turns))
           == ActionBroker.PlayOut(c, w2.ledger, w2.workers[i], ScriptOf(c, w2, i, turns[1..]))
  {
    var turn, script := turns[0], ScriptOf(c, w, i, turns);
    TurnIsSteps(c, w, i, turn);
    assert script[0] == ActionBroker.Await(CallsOf(c, w, turn.others), turn.reply, turn.now);
    assert script[1..] == ScriptOf(c, RunFrom(c, w, TurnSteps(i, turn)), i, turns[1..]);
    PlayOutUnfolds(c, w.ledger, w.workers[i], script);
    AnswerIsReaction(c, RunFrom(c, w, turn.others), i, turn.reply, turn.now);
  }

  lemma StepsSplit(c: Config, w: World, i: nat, turns: seq<Turn>, k: nat)
    requires k < |turns|
    ensures RunFrom(c, w, StepsOf(i, turns[..k + 1]))
         == RunFrom(c, RunFrom(c, w, TurnSteps(i, turns[0])), StepsOf(i, turns[1..][..k]))
  {
    assert turns[..k + 1][1..] == turns[1..][..k];
    RunsCompose(c, w, TurnSteps(i, turns[0]), StepsOf(i, turns[1..][..k]));
  }

  /** From any await to the end, crash included: the operation is the first `k` turns of the schedule. */
  lemma {:induction false} PlayedOutIsARun(c: Config, w: World, i: nat, turns: seq<Turn>) returns (k: nat)
    requires i < |w.workers| && Schedule(turns, i)
    ensures k <= |turns| && i < |RunFrom(c, w, StepsOf(i, turns[..k])).workers|
    ensures var (ledger, outcome) := ActionBroker.PlayOut(c, w.ledger, w.workers[i], ScriptOf(c, w, i, turns));
      var w' := RunFrom(c, w, StepsOf(i, turns[..k]));
      w'.ledger == ledger && if outcome.Some? then w'.workers[i].stage == Finished(outcome.value) else k == |turns|
    decreases |turns|
  {
    if w.workers[i].stage.Finished? || turns == [] {
      k := 0;
    } else {
      TurnPlaysOut(c, w, i, turns);
      var rest := PlayedOutIsARun(c, RunFrom(c, w, TurnSteps(i, turns[0])), i, turns[1..]);
      StepsSplit(c, w, i, turns, rest);
      k := rest + 1;
    }
  }

  lemma StartIsOperate(c: Config, w: World, i: nat, now: int, script: seq<ActionBroker.Await>)
    requires i < |w.workers|
    ensures var w1 := Apply(c, w, Run(i, now));
      && i < |w1.workers|
      && ActionBroker.Operate(c, w.ledger, Refreshed(w.ledger, w.workers[i]), now, script)
           == ActionBroker.PlayOut(c, w1.ledger, w1.workers[i], script)
  {
  }

  /**
   * A whole operation of a worker, from any reachable state and under any schedule of the others:
   * the method, given the script the schedule amounts to, leaves the ledger and reports the
   * outcome of the interleaved run, which it ends after some `k` turns.
   */
  lemma OperationIsARun(c: Config, before: seq<Step>, i: nat, now: int, turns: seq<Turn>) returns (k: nat)
    requires i < |RunAll(c, before).workers| && Schedule(turns, i)
    ensures k <= |turns| && i < |RunAll(c, before + ([Run(i, now)] + StepsOf(i, turns[..k]))).workers|
    ensures var start := RunAll(c, before);
      var script := ScriptOf(c, Apply(c, start, Run(i, now)), i, turns);
      var (ledger, outcome) :=
        ActionBroker.Operate(c, start.ledger, Refreshed(start.ledger, start.workers[i]), now, script);
      var w := RunAll(c, before + ([Run(i, now)] + StepsOf(i, turns[..k])));
      w.ledger == ledger && if outcome.Some? then w.workers[i].stage == Finished(outcome.value) else k == |turns|
  {
    var w := RunAll(c, before);
    var w1 := Apply(c, w, Run(i, now));
    OneStep(c, w, Run(i, now));
    StartIsOperate(c, w, i, now, ScriptOf(c, w1, i, turns));
    k := PlayedOutIsARun(c, w1, i, turns);
    RunsCompose(c, w, [Run(i, now)], StepsOf(i, turns[..k]));
    RunContinues(c, before, [Run(i, now)] + StepsOf(i, turns[..k]));
  }
}
