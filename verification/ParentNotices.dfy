/**
 * The parent-notice queue and the turn context of a manager: notices are peeked, the turn is
 * offered to the adapter, and only an accepted turn commits the drain; a turn that is not
 * accepted puts the earlier context back.
 */
module ParentNotices {
  import opened Common

  /** Where a manager works during one turn. */
  datatype Context = Context(workspace: Option<string>, mode: Option<string>, source: string)

  /** A turn the adapter has not answered yet. A turn of the top manager has no context. */
  datatype Turn = Turn(peeked: seq<string>, context: Option<Context>, prior: Option<Context>)

  datatype Office = Office(pending: map<string, seq<string>>, contexts: map<string, Context>)

  datatype Answer = Accepted | Refused | Threw

  function Peek(o: Office, run: string): seq<string> {
    if run in o.pending then o.pending[run] else []
  }

  function ContextOf(m: map<string, Context>, run: string): Option<Context> {
    if run in m then Some(m[run]) else None
  }

  function Queue(o: Office, run: string, notice: string): Office {
    if run == "" || notice == "" then o else o.(pending := o.pending[run := Peek(o, run) + [notice]])
  }

  /** Removes a number of notices from the head, as many as there are; an empty queue has no entry. */
  function Commit(o: Office, run: string, count: nat): Office {
    var left := Drop(Peek(o, run), count);
    if count == 0 || run !in o.pending then o
    else if left == [] then o.(pending := o.pending - {run})
    else o.(pending := o.pending[run := left])
  }

  function Drop(s: seq<string>, count: nat): seq<string> {
    if count <= |s| then s[count..] else []
  }

  function Clear(o: Office, run: string): Office {
    o.(pending := o.pending - {run})
  }

  function ClearContext(o: Office, run: string): Office {
    o.(contexts := o.contexts - {run})
  }

  function Put(o: Office, run: string, context: Option<Context>): Office {
    match context
    case Some(c) => o.(contexts := o.contexts[run := c])
    case None => ClearContext(o, run)
  }

  function Open(o: Office, run: string, context: Option<Context>): (Office, Turn) {
    (if context.Some? then Put(o, run, context) else o, Turn(Peek(o, run), context, ContextOf(o.contexts, run)))
  }

  function Close(o: Office, run: string, turn: Turn, answer: Answer): Office {
    if answer.Accepted? then Commit(o, run, |turn.peeked|)
    else if turn.context.Some? then Put(o, run, turn.prior)
    else o
  }

  // ---------------------------------------------------------------- runs

  /**
   * A run of the service. For each manager run, `queued` and `delivered` are the notices
   * queued and delivered since its notices were last cleared, and `accepted` is the context of
   * its last accepted turn since its context was last cleared. A stale turn peeked its notices
   * before a clear, so they do not count as delivered since.
   */
  datatype World = World(office: Office, turns: map<string, Turn>, stale: set<string>, queued: map<string, seq<string>>,
                         delivered: map<string, seq<string>>, accepted: map<string, Context>)

  datatype Step =
    | Notice(run: string, notice: string)
    | Begin(run: string, context: Option<Context>)
    | End(run: string, answer: Answer)
    | Consume(run: string)
    | ClearNotices(run: string)
    | ForgetContext(run: string)

  const EMPTY := World(Office(map[], map[]), map[], {}, map[], map[], map[])

  function Of(m: map<string, seq<string>>, run: string): seq<string> {
    if run in m then m[run] else []
  }

  function Take(w: World, s: Step): World {
    match s
    case Notice(run, notice) =>
      if run == "" || notice == "" then w
      else w.(office := Queue(w.office, run, notice), queued := w.queued[run := Of(w.queued, run) + [notice]])
    case Begin(run, context) =>
      if run in w.turns then w
      else
        var (o, turn) := Open(w.office, run, context);
        w.(office := o, turns := w.turns[run := turn])
    case End(run, answer) => if run in w.turns then EndTurn(w, run, answer) else w
    case Consume(run) =>
      w.(office := Clear(w.office, run), delivered := w.delivered[run := Of(w.delivered, run) + Peek(w.office, run)])
    case ClearNotices(run) =>
      w.(office := Clear(w.office, run), queued := w.queued - {run}, delivered := w.delivered - {run},
         stale := if run in w.turns then w.stale + {run} else w.stale)
    case ForgetContext(run) =>
      w.(office := ClearContext(w.office, run), accepted := w.accepted - {run})
  }

  function EndTurn(w: World, run: string, answer: Answer): World
    requires run in w.turns
  {
    var turn := w.turns[run];
    var done := w.(office := Close(w.office, run, turn, answer), turns := w.turns - {run}, stale := w.stale - {run});
    if !answer.Accepted? then done
    else
      done.(delivered := if run in w.stale then w.delivered else w.delivered[run := Of(w.delivered, run) + turn.peeked],
            accepted := if turn.context.Some? then w.accepted[run := turn.context.value] else w.accepted)
  }

  function RunFrom(w: World, steps: seq<Step>): World {
    if steps == [] then w else Take(RunFrom(w, steps[..|steps| - 1]), steps[|steps| - 1])
  }

  function Reached(steps: seq<Step>): World {
    RunFrom(EMPTY, steps)
  }

  // ---------------------------------------------------------------- notices

  /** Delivered notices followed by pending ones are the queued ones. */
  predicate Balanced(w: World, run: string) {
    Of(w.delivered, run) + Peek(w.office, run) == Of(w.queued, run)
  }

  /**
   * An accepted turn removes what it did not deliver: after a clear, any notice queued since; else,
   * if what it peeked is no longer at the head of the queue, whatever is there instead.
   */
  predicate Misfiles(w: World, s: Step, run: string) {
    && s == End(run, Accepted) && run in w.turns
    && var peeked, pending := w.turns[run].peeked, Peek(w.office, run);
       if run in w.stale then peeked != [] && pending != [] else !(peeked <= pending)
  }

  lemma DrainBalances(delivered: seq<string>, pending: seq<string>, peeked: seq<string>)
    ensures (delivered + peeked) + Drop(pending, |peeked|) == delivered + pending <==> peeked <= pending
  {
    if peeked <= pending {
      assert pending == peeked + pending[|peeked|..];
    }
    if (delivered + peeked) + Drop(pending, |peeked|) == delivered + pending {
      HeadOfEqual(delivered, pending, peeked, Drop(pending, |peeked|));
    }
  }

  lemma HeadOfEqual(delivered: seq<string>, pending: seq<string>, peeked: seq<string>, rest: seq<string>)
    requires (delivered + peeked) + rest == delivered + pending
    ensures peeked <= pending
  {
    var left, right := (delivered + peeked) + rest, delivered + pending;
    assert |left| == |right|;
    assert left[|delivered|..|delivered| + |peeked|] == peeked;
    assert right[|delivered|..|delivered| + |peeked|] == pending[..|peeked|];
  }

  lemma AcceptedTurnStep(w: World, r: string, run: string)
    requires Balanced(w, run) && r in w.turns
    ensures Balanced(EndTurn(w, r, Accepted), run) <==> !Misfiles(w, End(r, Accepted), run)
  {
    if r == run {
      DrainBalances(Of(w.delivered, run), Peek(w.office, run), w.turns[r].peeked);
    }
  }

  /** Balanced books go on balancing exactly when the step does not misfile a turn's notices. */
  lemma NoticeStep(w: World, s: Step, run: string)
    requires Balanced(w, run)
    ensures Balanced(Take(w, s), run) <==> !Misfiles(w, s, run)
  {
    match s
    case Notice(r, notice) =>
      if r == run && run != "" && notice != "" {
        var d, p := Of(w.delivered, run), Peek(w.office, run);
        assert d + (p + [notice]) == (d + p) + [notice];
      }
    case Begin(r, context) =>
    case End(r, answer) => if r in w.turns && answer.Accepted? { AcceptedTurnStep(w, r, run); }
    case Consume(r) =>
      if r == run {
        assert (Of(w.delivered, run) + Peek(w.office, run)) + [] == Of(w.delivered, run) + Peek(w.office, run);
      }
    case ClearNotices(r) =>
    case ForgetContext(r) =>
  }

  predicate Misfiled(steps: seq<Step>, run: string) {
    exists n :: 0 <= n < |steps| && Misfiles(Reached(steps[..n]), steps[n], run)
  }

  predicate BalancedThroughout(steps: seq<Step>, run: string) {
    forall n :: 0 <= n <= |steps| ==> Balanced(Reached(steps[..n]), run)
  }

  lemma MisfiledGrows(steps: seq<Step>, run: string)
    requires steps != []
    ensures var front := steps[..|steps| - 1];
      Misfiled(steps, run) <==> Misfiled(front, run) || Misfiles(Reached(front), steps[|steps| - 1], run)
  {
    var front := steps[..|steps| - 1];
    assert forall m :: 0 <= m <= |front| ==> front[..m] == steps[..m];
  }

  lemma PrefixesGrow(steps: seq<Step>, holds: seq<Step> -> bool)
    requires steps != []
    ensures var front := steps[..|steps| - 1];
      (forall n :: 0 <= n <= |steps| ==> holds(steps[..n]))
      <==> (forall n :: 0 <= n <= |front| ==> holds(front[..n])) && holds(steps)
  {
    var front := steps[..|steps| - 1];
    assert forall m :: 0 <= m <= |front| ==> front[..m] == steps[..m];
    assert steps[..|steps|] == steps;
  }

  lemma BalancedGrows(steps: seq<Step>, run: string)
    requires steps != []
    ensures var front := steps[..|steps| - 1];
      BalancedThroughout(steps, run) <==> BalancedThroughout(front, run) && Balanced(Reached(steps), run)
  {
    PrefixesGrow(steps, s => Balanced(Reached(s), run));
  }

  /**
   * No notice is lost, duplicated or reordered: along a run, delivered notices followed by
   * pending ones are at every point the ones queued since the last clear, if and only if no
   * accepted turn misfiles: commits after a clear that new notices followed, or no longer finds
   * what it peeked at the head of the queue.
   */
  lemma {:induction false} NoticesAreConserved(steps: seq<Step>, run: string)
    ensures BalancedThroughout(steps, run) <==> !Misfiled(steps, run)
  {
    if steps == [] {
      assert steps[..0] == [];
    } else {
      var n := |steps| - 1;
      var front := steps[..n];
      NoticesAreConserved(front, run);
      MisfiledGrows(steps, run);
      BalancedGrows(steps, run);
      if BalancedThroughout(front, run) {
        assert front[..n] == front;
        NoticeStep(Reached(front), steps[n], run);
      }
    }
  }

  /** Whether a step empties the queue of a run behind the back of an open turn. */
  predicate Disturbs(w: World, s: Step, run: string) {
    run in w.turns && (s == ClearNotices(run) || s == Consume(run))
  }

  predicate Undisturbed(steps: seq<Step>, run: string) {
    forall n :: 0 <= n < |steps| ==> !Disturbs(Reached(steps[..n]), steps[n], run)
  }

  /** What an open turn peeked is still the head of the queue. */
  predicate HeadHolds(w: World, run: string) {
    run !in w.stale && (run in w.turns ==> w.turns[run].peeked <= Peek(w.office, run))
  }

  lemma HeadStep(w: World, s: Step, run: string)
    requires HeadHolds(w, run) && !Disturbs(w, s, run)
    ensures HeadHolds(Take(w, s), run)
  {
  }

  lemma {:induction false} HeadHoldsUndisturbed(steps: seq<Step>, run: string)
    requires Undisturbed(steps, run)
    ensures HeadHolds(Reached(steps), run)
  {
    if steps != [] {
      var n := |steps| - 1;
      var front := steps[..n];
      assert forall m :: 0 <= m <= n ==> front[..m] == steps[..m];
      assert forall m :: 0 <= m < n ==> !Disturbs(Reached(steps[..m]), steps[m], run);
      HeadHoldsUndisturbed(front, run);
      HeadStep(Reached(front), steps[n], run);
    }
  }

  /**
   * Whatever worker sends, nested notices and accepted, refused or failing turns happen, no
   * notice of a run is lost as long as nobody clears its queue while a turn of it is open.
   */
  lemma UndisturbedTurnsKeepNotices(steps: seq<Step>, run: string)
    requires Undisturbed(steps, run)
    ensures BalancedThroughout(steps, run)
    ensures Balanced(Reached(steps), run)
  {
    forall n | 0 <= n < |steps| ensures !Misfiles(Reached(steps[..n]), steps[n], run) {
      var front := steps[..n];
      forall m | 0 <= m < n ensures !Disturbs(Reached(front[..m]), front[m], run) {
        assert front[..m] == steps[..m];
      }
      HeadHoldsUndisturbed(front, run);
    }
    NoticesAreConserved(steps, run);
    assert steps[..|steps|] == steps;
  }

  lemma OneMore(steps: seq<Step>, s: Step)
    ensures Reached(steps + [s]) == Take(Reached(steps), s)
  {
    assert (steps + [s])[..|steps|] == steps;
  }

  lemma ThreeSteps(a: Step, b: Step, c: Step)
    ensures Reached([a, b, c]) == Take(Take(Take(EMPTY, a), b), c)
  {
    OneMore([], a);
    OneMore([a], b);
    OneMore([a, b], c);
    assert [] + [a] == [a] && [a] + [b] == [a, b] && [a, b] + [c] == [a, b, c];
  }

  lemma FiveSteps(a: Step, b: Step, c: Step, d: Step, e: Step)
    ensures Reached([a, b, c, d, e]) == Take(Take(Take(Take(Take(EMPTY, a), b), c), d), e)
  {
    ThreeSteps(a, b, c);
    OneMore([a, b, c], d);
    OneMore([a, b, c, d], e);
    assert [a, b, c] + [d] == [a, b, c, d] && [a, b, c, d] + [e] == [a, b, c, d, e];
  }

  /** A clear inside a turn that is then accepted makes the commit drop a notice nobody read. */
  lemma ClearInsideATurnLosesANotice()
    ensures var w := Reached([Notice("m", "a"), Begin("m", None), ClearNotices("m"), Notice("m", "b"), End("m", Accepted)]);
      && Of(w.queued, "m") == ["b"] && Peek(w.office, "m") == [] && Of(w.delivered, "m") == []
  {
    FiveSteps(Notice("m", "a"), Begin("m", None), ClearNotices("m"), Notice("m", "b"), End("m", Accepted));
    var b := Take(Take(EMPTY, Notice("m", "a")), Begin("m", None));
    assert b.turns["m"].peeked == ["a"];
    var d := Take(Take(b, ClearNotices("m")), Notice("m", "b"));
    assert Peek(d.office, "m") == ["b"] && d.turns["m"].peeked == ["a"] && Of(d.delivered, "m") == [] && "m" in d.stale;
  }

  // ---------------------------------------------------------------- turn contexts

  /** The context the service should answer with: the open turn's, else the last accepted one's. */
  function Truth(w: World, run: string): Option<Context> {
    if run in w.turns && w.turns[run].context.Some? then w.turns[run].context else ContextOf(w.accepted, run)
  }

  predicate ContextHolds(w: World, run: string) {
    ContextOf(w.office.contexts, run) == Truth(w, run)
  }

  /** What a turn would put back is the context of the last accepted turn. */
  predicate PriorHolds(w: World, run: string) {
    run in w.turns && w.turns[run].context.Some? ==> w.turns[run].prior == ContextOf(w.accepted, run)
  }

  /** The context of a run is dropped while a turn of it that set one is open. */
  predicate Forgets(w: World, s: Step, run: string) {
    s == ForgetContext(run) && run in w.turns && w.turns[run].context.Some?
  }

  lemma ContextAtEnd(w: World, r: string, answer: Answer, run: string)
    requires ContextHolds(w, run) && PriorHolds(w, run) && r in w.turns
    ensures ContextHolds(EndTurn(w, r, answer), run) && PriorHolds(EndTurn(w, r, answer), run)
  {
    var v := EndTurn(w, r, answer);
    if r != run {
      assert ContextOf(v.office.contexts, run) == ContextOf(w.office.contexts, run);
      assert Truth(v, run) == Truth(w, run);
    }
  }

  /** The stored context stays the true one exactly when the step does not drop it under an open turn. */
  lemma ContextStep(w: World, s: Step, run: string)
    requires ContextHolds(w, run) && PriorHolds(w, run)
    ensures ContextHolds(Take(w, s), run) <==> !Forgets(w, s, run)
    ensures !Forgets(w, s, run) ==> PriorHolds(Take(w, s), run)
  {
    if s.End? && s.run in w.turns {
      ContextAtEnd(w, s.run, s.answer, run);
    }
  }

  predicate Forgotten(steps: seq<Step>, run: string) {
    exists n :: 0 <= n < |steps| && Forgets(Reached(steps[..n]), steps[n], run)
  }

  predicate ContextHoldsThroughout(steps: seq<Step>, run: string) {
    forall n :: 0 <= n <= |steps| ==> ContextHolds(Reached(steps[..n]), run)
  }

  lemma ForgottenGrows(steps: seq<Step>, run: string)
    requires steps != []
    ensures var front := steps[..|steps| - 1];
      Forgotten(steps, run) <==> Forgotten(front, run) || Forgets(Reached(front), steps[|steps| - 1], run)
  {
    var front := steps[..|steps| - 1];
    assert forall m :: 0 <= m <= |front| ==> front[..m] == steps[..m];
  }

  lemma ContextHoldsGrows(steps: seq<Step>, run: string)
    requires steps != []
    ensures var front := steps[..|steps| - 1];
      ContextHoldsThroughout(steps, run) <==> ContextHoldsThroughout(front, run) && ContextHolds(Reached(steps), run)
  {
    PrefixesGrow(steps, s => ContextHolds(Reached(s), run));
  }

  /**
   * The stored context is at every point of a run that of the open turn, or else of the last
   * accepted turn since the last clear, if and only if it is never cleared while a turn of the
   * run that set one is open.
   */
  lemma {:induction false} ContextIsOfLastAcceptedTurn(steps: seq<Step>, run: string)
    ensures ContextHoldsThroughout(steps, run) <==> !Forgotten(steps, run)
    ensures !Forgotten(steps, run) ==> PriorHolds(Reached(steps), run)
  {
    if steps == [] {
      assert steps[..0] == [];
    } else {
      var n := |steps| - 1;
      var front := steps[..n];
      ContextIsOfLastAcceptedTurn(front, run);
      ForgottenGrows(steps, run);
      ContextHoldsGrows(steps, run);
      if ContextHoldsThroughout(front, run) {
        assert front[..n] == front;
        ContextStep(Reached(front), steps[n], run);
      }
    }
  }

  /** A clear inside a turn: if the turn is accepted its context is lost, if not an old one comes back. */
  lemma ClearInsideATurnFalsifiesTheContext(c: Context, d: Context)
    ensures var w := Reached([Begin("m", Some(c)), ForgetContext("m"), End("m", Accepted)]);
      ContextOf(w.office.contexts, "m") == None && ContextOf(w.accepted, "m") == Some(c)
    ensures var w := Reached([Begin("m", Some(c)), End("m", Accepted), Begin("m", Some(d)), ForgetContext("m"), End("m", Refused)]);
      ContextOf(w.office.contexts, "m") == Some(c) && ContextOf(w.accepted, "m") == None
  {
    ThreeSteps(Begin("m", Some(c)), ForgetContext("m"), End("m", Accepted));
    var forgotten := Take(Take(EMPTY, Begin("m", Some(c))), ForgetContext("m"));
    assert "m" !in forgotten.office.contexts && forgotten.turns["m"].context == Some(c);
    RefusedAfterClear(c, d);
  }

  lemma RefusedAfterClear(c: Context, d: Context)
    ensures var w := Reached([Begin("m", Some(c)), End("m", Accepted), Begin("m", Some(d)), ForgetContext("m"), End("m", Refused)]);
      ContextOf(w.office.contexts, "m") == Some(c) && ContextOf(w.accepted, "m") == None
  {
    FiveSteps(Begin("m", Some(c)), End("m", Accepted), Begin("m", Some(d)), ForgetContext("m"), End("m", Refused));
    var accepted := Take(Take(EMPTY, Begin("m", Some(c))), End("m", Accepted));
    assert ContextOf(accepted.office.contexts, "m") == Some(c) && "m" !in accepted.turns;
    var begun := Take(accepted, Begin("m", Some(d)));
    assert "m" in begun.turns && begun.turns["m"].prior == Some(c) && begun.turns["m"].context == Some(d);
    var forgotten := Take(begun, ForgetContext("m"));
    assert forgotten.turns == begun.turns && "m" !in forgotten.accepted;
  }

  // ---------------------------------------------------------------- the service

  const BLANK := "\n\n"
  const RULE := "\n\n---\n\n"

  function Joined(notices: seq<string>): string {
    if notices == [] then ""
    else if |notices| == 1 then notices[0]
    else notices[0] + BLANK + Joined(notices[1..])
  }

  /** The text the adapter delivers: the pending notices, then the user's own text. */
  function Delivered(notices: seq<string>, text: string): string {
    if notices == [] then text else Joined(notices) + RULE + text
  }

  /** What starts at `next` comes after a notice and a blank line. */
  predicate Follows(s: string, notice: string, at: nat, next: nat) {
    next == at + |notice| + 2 && OccursAt(s, "\n\n", next - 2)
  }

  /** One notice after the other from the start, a blank line between two, and `end` is where the last one stops. */
  ghost predicate StandAt(s: string, notices: seq<string>, at: seq<nat>, end: nat) {
    && |at| == |notices| > 0 && at[0] == 0
    && (forall k :: 0 <= k < |at| ==> OccursAt(s, notices[k], at[k]))
    && (forall j, k :: 0 <= j && k == j + 1 < |at| ==> Follows(s, notices[j], at[j], at[k]))
    && end == at[|at| - 1] + |notices[|at| - 1]|
  }

  /** A text that carries notices and then the user's own text, a ruled line between them. */
  ghost predicate Carries(s: string, notices: seq<string>, text: string) {
    if notices == [] then s == text
    else exists at: seq<nat>, end: nat :: StandAt(s, notices, at, end) && end <= |s| && s[end..] == "\n\n---\n\n" + text
  }

  lemma OccursLater(a: string, b: string, sub: string, i: nat)
    requires OccursAt(b, sub, i)
    ensures OccursAt(a + b, sub, |a| + i)
  {
    assert (a + b)[|a| + i..|a| + i + |sub|] == b[i..i + |sub|];
  }

  lemma FollowsLater(a: string, b: string, notice: string, at: nat, next: nat)
    requires Follows(b, notice, at, next)
    ensures Follows(a + b, notice, |a| + at, |a| + next)
  {
    OccursLater(a, b, BLANK, next - 2);
  }

  lemma OccursEarlier(a: string, b: string, sub: string, i: nat)
    requires OccursAt(a, sub, i)
    ensures OccursAt(a + b, sub, i)
  {
    assert (a + b)[i..i + |sub|] == a[i..i + |sub|];
  }

  lemma StandBefore(s: string, tail: string, notices: seq<string>, at: seq<nat>)
    requires StandAt(s, notices, at, |s|)
    ensures StandAt(s + tail, notices, at, |s|)
  {
    forall k | 0 <= k < |at| ensures OccursAt(s + tail, notices[k], at[k]) {
      OccursEarlier(s, tail, notices[k], at[k]);
    }
    forall j, k | 0 <= j && k == j + 1 < |at| ensures Follows(s + tail, notices[j], at[j], at[k]) {
      assert Follows(s, notices[j], at[j], at[k]);
      OccursEarlier(s, tail, BLANK, at[k] - 2);
    }
  }

  lemma OneMoreStands(first: string, joined: string, rest: seq<string>, after: seq<nat>) returns (at: seq<nat>)
    requires StandAt(joined, rest, after, |joined|)
    ensures StandAt(first + BLANK + joined, [first] + rest, at, |first + BLANK + joined|)
  {
    var before, s, notices := first + BLANK, first + BLANK + joined, [first] + rest;
    var moved: seq<nat> := seq(|after|, k requires 0 <= k < |after| => |before| + after[k]);
    at := [0] + moved;
    assert s == before + joined;
    assert OccursAt(s, first, 0) && Follows(s, first, 0, |before|) by {
      assert s[0..|first|] == first && s[|first|..|first| + 2] == BLANK;
    }
    forall k | 0 <= k < |at| ensures OccursAt(s, notices[k], at[k]) {
      if k > 0 { OccursLater(before, joined, rest[k - 1], after[k - 1]); }
    }
    forall j, k | 0 <= j && k == j + 1 < |at| ensures Follows(s, notices[j], at[j], at[k]) {
      if j > 0 { FollowsLater(before, joined, rest[j - 1], after[j - 1], after[j]); }
    }
  }

  lemma {:induction false} JoinedStand(notices: seq<string>) returns (at: seq<nat>)
    requires notices != []
    ensures StandAt(Joined(notices), notices, at, |Joined(notices)|)
  {
    if |notices| == 1 {
      at := [0];
      var s := notices[0];
      assert s[0..|s|] == s && Joined(notices) == s;
    } else {
      var after := JoinedStand(notices[1..]);
      at := OneMoreStands(notices[0], Joined(notices[1..]), notices[1..], after);
      assert [notices[0]] + notices[1..] == notices;
    }
  }

  /** What the adapter is given holds every pending notice, in order, and ends with the user's text. */
  lemma DeliveredCarries(notices: seq<string>, text: string)
    ensures Carries(Delivered(notices, text), notices, text)
  {
    if notices != [] {
      var joined, s := Joined(notices), Delivered(notices, text);
      var at := JoinedStand(notices);
      assert s == joined + (RULE + text) && s[|joined|..] == RULE + text;
      StandBefore(joined, RULE + text, notices, at);
    }
  }

  /** What can reach the service while the adapter starts a turn: single calls, and whole turns of other managers. */
  datatype Meanwhile =
    | Plain(step: Step)
    | Send(run: string, text: string, context: Option<Context>, during: seq<Meanwhile>, answer: Answer,
           upward: Option<Upward>)

  /** The notice an accepted operator turn queues for its parent. */
  datatype Upward = Upward(run: string, notice: string)

  /** A turn is opened and closed by a send only. */
  function ApplyStep(o: Office, s: Step): Office {
    match s
    case Notice(run, notice) => Queue(o, run, notice)
    case Consume(run) => Clear(o, run)
    case ClearNotices(run) => Clear(o, run)
    case ForgetContext(run) => ClearContext(o, run)
    case Begin(_, _) => o
    case End(_, _) => o
  }

  function Apply(o: Office, m: Meanwhile): Office
    decreases m
  {
    match m
    case Plain(step) => ApplyStep(o, step)
    case Send(run, _, context, during, answer, upward) =>
      var (begun, turn) := Open(o, run, context);
      AfterTurn(ApplyAll(begun, during), run, turn, answer, upward)
  }

  function ApplyAll(o: Office, during: seq<Meanwhile>): Office
    decreases during
  {
    if during == [] then o else Apply(ApplyAll(o, during[..|during| - 1]), during[|during| - 1])
  }

  function AfterTurn(o: Office, run: string, turn: Turn, answer: Answer, upward: Option<Upward>): Office {
    var closed := Close(o, run, turn, answer);
    if answer.Accepted? && upward.Some? then Queue(closed, upward.value.run, upward.value.notice) else closed
  }

  // ---------------------------------------------------------------- a send as a run

  function Closing(run: string, answer: Answer, upward: Option<Upward>): seq<Step> {
    [End(run, answer)] + if answer.Accepted? && upward.Some? then [Notice(upward.value.run, upward.value.notice)] else []
  }

  /** A send as steps of a run: the turn opens, other things happen, the turn closes. */
  function StepsOf(m: Meanwhile): seq<Step>
    decreases m
  {
    match m
    case Plain(step) => [step]
    case Send(run, _, context, during, answer, upward) => [Begin(run, context)] + Flat(during) + Closing(run, answer, upward)
  }

  function Flat(during: seq<Meanwhile>): seq<Step>
    decreases during
  {
    if during == [] then [] else Flat(during[..|during| - 1]) + StepsOf(during[|during| - 1])
  }

  /** No turn is opened for a manager that has one open. */
  predicate Nests(open: set<string>, m: Meanwhile)
    decreases m
  {
    match m
    case Plain(step) => !step.Begin? && !step.End?
    case Send(run, _, _, during, _, _) => run !in open && AllNest(open + {run}, during)
  }

  predicate AllNest(open: set<string>, during: seq<Meanwhile>)
    decreases during
  {
    during == [] || (AllNest(open, during[..|during| - 1]) && Nests(open, during[|during| - 1]))
  }

  lemma {:induction false} RunsCompose(w: World, a: seq<Step>, b: seq<Step>)
    ensures RunFrom(w, a + b) == RunFrom(RunFrom(w, a), b)
  {
    if b == [] {
      assert a + b == a;
    } else {
      var n := |b| - 1;
      assert (a + b)[..|a| + n] == a + b[..n];
      RunsCompose(w, a, b[..n]);
    }
  }

  lemma One(w: World, s: Step)
    ensures RunFrom(w, [s]) == Take(w, s)
  {
    assert [s][..0] == [];
  }

  /**
   * What a send does to the maps, with all that is nested in it, is a run of the steps above, so
   * their guarantees hold of it.
   */
  lemma {:induction false} SendIsARun(w: World, m: Meanwhile)
    requires Nests(w.turns.Keys, m)
    ensures RunFrom(w, StepsOf(m)).office == Apply(w.office, m)
    ensures RunFrom(w, StepsOf(m)).turns == w.turns
    decreases m
  {
    match m
    case Plain(step) => One(w, step);
    case Send(run, _, context, during, answer, upward) =>
      var begun := Take(w, Begin(run, context));
      One(w, Begin(run, context));
      assert begun.turns.Keys == w.turns.Keys + {run};
      NestedIsARun(begun, during);
      RunsCompose(w, [Begin(run, context)], Flat(during));
      RunsCompose(w, [Begin(run, context)] + Flat(during), Closing(run, answer, upward));
      ClosingIsARun(RunFrom(begun, Flat(during)), run, answer, upward);
      assert begun.turns - {run} == w.turns;
  }

  lemma {:induction false} NestedIsARun(w: World, during: seq<Meanwhile>)
    requires AllNest(w.turns.Keys, during)
    ensures RunFrom(w, Flat(during)).office == ApplyAll(w.office, during)
    ensures RunFrom(w, Flat(during)).turns == w.turns
    decreases during
  {
    if during != [] {
      var front, last := during[..|during| - 1], during[|during| - 1];
      NestedIsARun(w, front);
      SendIsARun(RunFrom(w, Flat(front)), last);
      RunsCompose(w, Flat(front), StepsOf(last));
    }
  }

  lemma ClosingIsARun(w: World, run: string, answer: Answer, upward: Option<Upward>)
    requires run in w.turns
    ensures RunFrom(w, Closing(run, answer, upward)).office == AfterTurn(w.office, run, w.turns[run], answer, upward)
    ensures RunFrom(w, Closing(run, answer, upward)).turns == w.turns - {run}
  {
    One(w, End(run, answer));
    if answer.Accepted? && upward.Some? {
      var notice := Notice(upward.value.run, upward.value.notice);
      RunsCompose(w, [End(run, answer)], [notice]);
      One(Take(w, End(run, answer)), notice);
    }
  }

  /** What is pending when a turn begins is what it peeked, until it ends. */
  lemma OpenTurn(before: seq<Step>, run: string, context: Option<Context>, during: seq<Meanwhile>)
    requires var w := Reached(before);
      run !in w.turns && AllNest(w.turns.Keys + {run}, during)
    ensures var w := Reached(before + [Begin(run, context)] + Flat(during));
      run in w.turns && w.turns[run].peeked == Peek(Reached(before).office, run)
  {
    OneMore(before, Begin(run, context));
    var begun := Reached(before + [Begin(run, context)]);
    assert begun.turns.Keys == Reached(before).turns.Keys + {run};
    RunsCompose(EMPTY, before + [Begin(run, context)], Flat(during));
    NestedIsARun(begun, during);
  }

  /** An accepted turn that was not disturbed delivers what it peeked and leaves the rest of the queue. */
  lemma AcceptedTurnDelivers(w: World, run: string)
    requires run in w.turns && HeadHolds(w, run)
    ensures var closed, peeked := Take(w, End(run, Accepted)), w.turns[run].peeked;
      && Of(closed.delivered, run) == Of(w.delivered, run) + peeked
      && Peek(w.office, run) == peeked + Peek(closed.office, run)
  {
  }

  /**
   * The notices an accepted send counts as delivered are those it put before the text, which were
   * pending when it began; they stood at the head of the queue and the rest of it stays.
   */
  lemma AcceptedSendDelivers(before: seq<Step>, run: string, context: Option<Context>, during: seq<Meanwhile>)
    requires var w := Reached(before);
      run !in w.turns && AllNest(w.turns.Keys + {run}, during)
    requires Undisturbed(before + [Begin(run, context)] + Flat(during), run)
    ensures var notices := Peek(Reached(before).office, run);
      var open := Reached(before + [Begin(run, context)] + Flat(during));
      var closed := Reached(before + [Begin(run, context)] + Flat(during) + [End(run, Accepted)]);
      && Of(closed.delivered, run) == Of(open.delivered, run) + notices
      && Peek(open.office, run) == notices + Peek(closed.office, run)
  {
    var steps := before + [Begin(run, context)] + Flat(during);
    OpenTurn(before, run, context, during);
    HeadHoldsUndisturbed(steps, run);
    OneMore(steps, End(run, Accepted));
    AcceptedTurnDelivers(Reached(steps), run);
  }

  /**
   * What the end of a send does to the queue of a manager: an accepted one takes as many notices as
   * it carried from the head of its own queue and appends its notice to the parent's; any other
   * leaves all queues alone.
   */
  predicate Drains(own: bool, carried: seq<string>, queued: seq<string>, left: seq<string>, notice: Option<string>) {
    && var kept := if !own then queued else if |carried| <= |queued| then queued[|carried|..] else [];
       left == if notice.Some? && notice.value != "" then kept + [notice.value] else kept
  }

  function NoticeFor(run: string, answer: Answer, upward: Option<Upward>): Option<string> {
    if answer.Accepted? && upward.Some? && upward.value.run == run != "" then Some(upward.value.notice) else None
  }

  lemma SendDrains(o: Office, run: string, context: Option<Context>, during: seq<Meanwhile>, answer: Answer,
                   upward: Option<Upward>, other: string)
    ensures var (begun, turn) := Open(o, run, context);
      var nested := ApplyAll(begun, during);
      var after := AfterTurn(nested, run, turn, answer, upward);
      && turn.peeked == Peek(o, run)
      && Drains(answer.Accepted? && other == run, Peek(o, run), Peek(nested, other), Peek(after, other),
                NoticeFor(other, answer, upward))
  {
  }

  // ---------------------------------------------------------------- entries

  /** A manager without pending notices takes no room in the map. */
  ghost predicate NoEmptyEntry(o: Office) {
    forall run :: run in o.pending ==> run != "" && o.pending[run] != []
  }

  lemma EntryStep(w: World, s: Step)
    requires NoEmptyEntry(w.office)
    ensures NoEmptyEntry(Take(w, s).office)
  {
    match s
    case Notice(r, notice) =>
    case Begin(r, context) =>
    case End(r, answer) => if r in w.turns { CloseKeepsEntries(w.office, r, w.turns[r], answer); }
    case Consume(r) =>
    case ClearNotices(r) =>
    case ForgetContext(r) =>
  }

  lemma CloseKeepsEntries(o: Office, run: string, turn: Turn, answer: Answer)
    requires NoEmptyEntry(o)
    ensures NoEmptyEntry(Close(o, run, turn, answer))
  {
  }

  lemma {:induction false} EntriesAreNotEmpty(steps: seq<Step>)
    ensures NoEmptyEntry(Reached(steps).office)
  {
    if steps != [] {
      EntriesAreNotEmpty(steps[..|steps| - 1]);
      EntryStep(Reached(steps[..|steps| - 1]), steps[|steps| - 1]);
    }
  }

  class ConversationService {
    var pendingNotices: map<string, seq<string>>
    var lastTurnContexts: map<string, Context>

    function State(): Office
      reads this
    {
      Office(pendingNotices, lastTurnContexts)
    }

    constructor ()
      ensures State() == EMPTY.office
    {
      pendingNotices, lastTurnContexts := map[], map[];
    }

    method QueueParentNotice(run: string, notice: string)
      modifies this`pendingNotices
      ensures State() == Queue(old(State()), run, notice)
    {
      if run == "" || notice == "" {
        return;
      }
      var notices := if run in pendingNotices then pendingNotices[run] else [];
      pendingNotices := pendingNotices[run := notices + [notice]];
    }

    method ConsumeParentNotices(run: string) returns (notices: seq<string>)
      modifies this`pendingNotices
      ensures State() == Clear(old(State()), run) && notices == Peek(old(State()), run)
    {
      notices := if run in pendingNotices then pendingNotices[run] else [];
      pendingNotices := pendingNotices - {run};
    }

    method ClearParentNotices(run: string)
      modifies this`pendingNotices
      ensures State() == Clear(old(State()), run)
    {
      pendingNotices := pendingNotices - {run};
    }

    method ClearTurnContext(run: string)
      modifies this`lastTurnContexts
      ensures State() == ClearContext(old(State()), run)
    {
      lastTurnContexts := lastTurnContexts - {run};
    }

    method CommitDrainParentNotices(run: string, count: nat)
      modifies this`pendingNotices
      ensures State() == Commit(old(State()), run, count)
    {
      if count == 0 || run !in pendingNotices {
        return;
      }
      var notices := pendingNotices[run];
      var toRemove := if count < |notices| then count else |notices|;
      notices := notices[toRemove..];
      if notices == [] {
        pendingNotices := pendingNotices - {run};
      } else {
        pendingNotices := pendingNotices[run := notices];
      }
    }

    /** What reaches the service while the adapter has the turn. */
    method WhileTurnStarts(during: seq<Meanwhile>)
      modifies this
      ensures State() == ApplyAll(old(State()), during)
      decreases during, 0
    {
      for i := 0 to |during|
        invariant State() == ApplyAll(old(State()), during[..i])
      {
        assert during[..i + 1][..i] == during[..i];
        match during[i]
        case Plain(step) => Receive(step);
        case Send(run, text, context, nested, answer, upward) =>
          var _, _ := SendToManagerSlot(run, text, context, nested, answer, upward);
      }
      assert during[..|during|] == during;
    }

    method Receive(step: Step)
      modifies this
      ensures State() == ApplyStep(old(State()), step)
    {
      match step
      case Notice(run, notice) => QueueParentNotice(run, notice);
      case Consume(run) => var _ := ConsumeParentNotices(run);
      case ClearNotices(run) => ClearParentNotices(run);
      case ForgetContext(run) => ClearTurnContext(run);
      case _ =>
    }

    method RollbackTurnContext(run: string, turn: Turn)
      modifies this`lastTurnContexts
      ensures State() == if turn.context.Some? then Put(old(State()), run, turn.prior) else old(State())
    {
      if turn.context.None? {
        return;
      }
      if turn.prior.Some? {
        lastTurnContexts := lastTurnContexts[run := turn.prior.value];
      } else {
        lastTurnContexts := lastTurnContexts - {run};
      }
    }

    /**
     * Offers one turn to the adapter. Only an accepted turn removes notices, exactly as many as
     * it delivered; otherwise the queue is as the nested calls left it and the earlier context
     * is back.
     */
    method SendToManagerSlot(run: string, text: string, context: Option<Context>, during: seq<Meanwhile>, answer: Answer,
                             upward: Option<Upward>) returns (effective: string, sent: bool)
      modifies this
      ensures State() == Apply(old(State()), Send(run, text, context, during, answer, upward))
      ensures sent == answer.Accepted? && Carries(effective, Peek(old(State()), run), text)
      ensures var nested := ApplyAll(Open(old(State()), run, context).0, during);
        forall other :: Drains(sent && other == run, Peek(old(State()), run), Peek(nested, other), Peek(State(), other),
                               NoticeFor(other, answer, upward))
      decreases during, 1
    {
      var notices := if run in pendingNotices then pendingNotices[run] else [];
      effective := Delivered(notices, text);
      DeliveredCarries(notices, text);
      forall other {
        SendDrains(State(), run, context, during, answer, upward, other);
      }
      var turn := Turn(notices, context, if run in lastTurnContexts then Some(lastTurnContexts[run]) else None);
      if context.Some? {
        lastTurnContexts := lastTurnContexts[run := context.value];
      }
      assert (State(), turn) == Open(old(State()), run, context);
      WhileTurnStarts(during);
      if !answer.Accepted? {
        RollbackTurnContext(run, turn);
        return effective, false;
      }
      if |notices| > 0 {
        CommitDrainParentNotices(run, |notices|);
      }
      if upward.Some? {
        QueueParentNotice(upward.value.run, upward.value.notice);
      }
      return effective, true;
    }

    /** A delivered worker message queues one notice for its live parent; a failed one queues none. */
    method SendToWorker(text: string, delivered: bool, parent: Option<string>, parentActive: bool, notice: string)
      returns (r: Result<bool>)
      modifies this`pendingNotices
      ensures r.Ok? <==> text != "" && delivered
      ensures State() == if r.Ok? && parent.Some? && parentActive
                         then Queue(old(State()), parent.value, notice) else old(State())
    {
      if text == "" || !delivered {
        return Err(BadRequest);
      }
      if parent.Some? && parentActive {
        QueueParentNotice(parent.value, notice);
      }
      return Ok(true);
    }
  }
}
