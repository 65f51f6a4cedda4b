/**
 * The reserved marker, the outgoing issue body, the transport classification and the
 * readback validation of the action plane.
 */
module ActionReadback {
  import opened Common

  const RESERVED_MARKER_NAME := "palantir-action-id"
  const MARKER_OPEN := "<!-- " + RESERVED_MARKER_NAME + ": "
  const MARKER_CLOSE := " -->"
  const SEPARATOR := "\n\n"

  // ---------------------------------------------------------------- marker and body

  function MarkerFor(actionId: string): string {
    MARKER_OPEN + actionId + MARKER_CLOSE
  }

  function BuildOutgoingBody(userBody: string, actionId: string): string {
    userBody + SEPARATOR + MarkerFor(actionId)
  }

  lemma NameHasNoNewline(k: nat)
    requires k < |RESERVED_MARKER_NAME|
    ensures RESERVED_MARKER_NAME[k] != '\n'
  {
  }

  lemma HeaderHasNoNameStart(k: nat)
    requires k < 7
    ensures (SEPARATOR + MARKER_OPEN)[k] != RESERVED_MARKER_NAME[0]
  {
  }

  lemma HeaderFollowsBody(body: string, id: string, k: nat)
    requires k < 7
    ensures |body| + k < |BuildOutgoingBody(body, id)|
    ensures BuildOutgoingBody(body, id)[|body| + k] == (SEPARATOR + MARKER_OPEN)[k]
  {
    assert BuildOutgoingBody(body, id) == body + (SEPARATOR + MARKER_OPEN + (id + MARKER_CLOSE));
  }

  lemma OccurrenceHasChar(s: string, sub: string, i: nat, k: nat)
    requires OccursAt(s, sub, i) && k < |sub|
    ensures i + k < |s| && s[i + k] == sub[k]
  {
    assert s[i..i + |sub|][k] == s[i + k];
  }

  /** No earlier occurrence: the name holds no newline and cannot start inside "\n\n<!-- ". */
  lemma NoEarlierOccurrence(body: string, id: string, i: nat)
    requires !Includes(body, RESERVED_MARKER_NAME)
    requires i < |body| + 7
    ensures !OccursAt(BuildOutgoingBody(body, id), RESERVED_MARKER_NAME, i)
  {
    var out := BuildOutgoingBody(body, id);
    if OccursAt(out, RESERVED_MARKER_NAME, i) {
      if i + |RESERVED_MARKER_NAME| <= |body| {
        InsideBody(body, id, i);
      } else if i <= |body| {
        OccurrenceHasChar(out, RESERVED_MARKER_NAME, i, |body| - i);
        HeaderFollowsBody(body, id, 0);
        NameHasNoNewline(|body| - i);
      } else {
        OccurrenceHasChar(out, RESERVED_MARKER_NAME, i, 0);
        HeaderFollowsBody(body, id, i - |body|);
        HeaderHasNoNameStart(i - |body|);
      }
    }
  }

  lemma InsideBody(body: string, id: string, i: nat)
    requires i + |RESERVED_MARKER_NAME| <= |body| && OccursAt(BuildOutgoingBody(body, id), RESERVED_MARKER_NAME, i)
    ensures Includes(body, RESERVED_MARKER_NAME)
  {
    assert BuildOutgoingBody(body, id) == body + (SEPARATOR + MarkerFor(id));
    assert OccursAt(body, RESERVED_MARKER_NAME, i);
  }

  lemma MarkerText()
    ensures MARKER_OPEN == "<!-- palantir-action-id: " && MARKER_CLOSE == " -->" && SEPARATOR == "\n\n"
  {
  }

  /** What an outgoing body looks like: the user's text, a blank line, and the comment that names the action. */
  lemma OutgoingBodyText(body: string, id: string, mark: string)
    requires mark == "<!-- palantir-action-id: "
    ensures BuildOutgoingBody(body, id) == body + "\n\n" + (mark + id + " -->")
  {
    MarkerText();
  }

  /** The name of the marker stands right after the body, the separator and the comment mark. */
  lemma NameAfterBody(body: string, id: string)
    ensures OccursAt(BuildOutgoingBody(body, id), RESERVED_MARKER_NAME, |body| + 7)
  {
  }

  lemma NotShorter(body1: string, id1: string, body2: string, id2: string)
    requires !Includes(body1, RESERVED_MARKER_NAME)
    requires BuildOutgoingBody(body1, id1) == BuildOutgoingBody(body2, id2)
    ensures |body1| <= |body2|
  {
    if |body2| < |body1| {
      NoEarlierOccurrence(body1, id1, |body2| + 7);
      NameAfterBody(body2, id2);
    }
  }

  /**
   * The outgoing body parses uniquely: whatever the two action ids are, equal outgoing
   * bodies come from equal user bodies and equal ids.
   */
  lemma OutgoingBodyIsInjective(body1: string, id1: string, body2: string, id2: string)
    requires !Includes(body1, RESERVED_MARKER_NAME) && !Includes(body2, RESERVED_MARKER_NAME)
    requires BuildOutgoingBody(body1, id1) == BuildOutgoingBody(body2, id2)
    ensures body1 == body2 && id1 == id2
  {
    NotShorter(body1, id1, body2, id2);
    NotShorter(body2, id2, body1, id1);
    var out := BuildOutgoingBody(body1, id1);
    assert out[..|body1|] == body1 && out[..|body2|] == body2;
    assert out[|body1| + 27..|out| - 4] == id1;
    assert out[|body2| + 27..|out| - 4] == id2;
  }

  // ---------------------------------------------------------------- gateway values

  /** What `issue.number` can be: missing, something else, or a JavaScript integer. */
  datatype NumberField = Missing | NotAnInteger | Whole(n: int)

  datatype Label = Plain(text: string) | Named(name: string) | Malformed

  /** An issue as the gateway returns it; `None` is a field that is not a string. */
  datatype Issue = Issue(
    number: NumberField,
    nodeId: Option<string>,
    htmlUrl: Option<string>,
    repo: Option<string>,
    title: Option<string>,
    body: Option<string>,
    state: Option<string>,
    labels: seq<Label>)

  /** The typed kinds of the gateway protocol; anything else is `Untyped`. */
  datatype Kind =
    | KindOk | ServerError | Timeout | ResponseLost | MalformedReply | NotFoundRepo
    | ValidationError | RateLimited | AbuseDenied | PermissionDenied
    | Untyped(text: string)

  /**
   * The value classified after a write: the error thrown, or else the value returned.
   * `wrapped` is its `issue` property and `self` the value itself read as an issue.
   */
  datatype Value = Value(
    kind: Option<Kind>,
    code: Option<Kind>,
    statusCode: Option<int>,
    wrapped: Option<Issue>,
    self: Issue)

  datatype Transport = TransportOk(issue: Option<Issue>) | Ambiguous | PermanentNoEffect | Throttled

  predicate Typed(k: Option<Kind>) {
    k.Some? && !k.value.Untyped?
  }

  function ExplicitKind(v: Value): Option<Kind> {
    if Typed(v.kind) then v.kind
    else if v.kind.None? && Typed(v.code) then v.code
    else None
  }

  function ClassifyKind(k: Kind, v: Value): Transport {
    match k
    case KindOk => TransportOk(v.wrapped)
    case ServerError => Ambiguous
    case Timeout => Ambiguous
    case ResponseLost => Ambiguous
    case MalformedReply => Ambiguous
    case NotFoundRepo => PermanentNoEffect
    case ValidationError => PermanentNoEffect
    case RateLimited => Throttled
    case AbuseDenied => Throttled
    case PermissionDenied => PermanentNoEffect
    case Untyped(_) => Ambiguous
  }

  function ClassifyCreateOutcome(value: Option<Value>): Transport {
    if value.None? then Ambiguous
    else
      var v := value.value;
      var kind := ExplicitKind(v);
      if kind.Some? then ClassifyKind(kind.value, v)
      else if v.code.Some? && v.code.value.Untyped? then Ambiguous
      else if v.kind.None? && v.code.None? && v.statusCode.None? && !v.self.number.Missing? then
        TransportOk(Some(v.self))
      else if v.statusCode.Some? && v.statusCode.value >= 500 then Ambiguous
      else if v.statusCode == Some(404) || v.statusCode == Some(422) then PermanentNoEffect
      else if v.statusCode == Some(429) then Throttled
      else if v.statusCode == Some(403) then PermanentNoEffect
      else Ambiguous
  }

  /** The gateway names this outcome: by its kind, or by its code when it has no kind. */
  predicate Says(v: Value, k: Kind) {
    v.kind == Some(k) || (v.kind.None? && v.code == Some(k))
  }

  /**
   * The status code decides only when no name does: there is neither kind nor code, or the kind is
   * one nobody knows and the code, if any, is one somebody knows.
   */
  predicate StatusDecides(v: Value) {
    || (v.kind.None? && v.code.None?)
    || (v.kind.Some? && v.kind.value.Untyped? && (v.code.None? || !v.code.value.Untyped?))
  }

  /** The gateway said that nothing happened and nothing will. */
  predicate Denied(v: Value) {
    || Says(v, NotFoundRepo) || Says(v, ValidationError) || Says(v, PermissionDenied)
    || (StatusDecides(v) && v.statusCode in {Some(403), Some(404), Some(422)})
  }

  /** The gateway refused to act now. */
  predicate Limited(v: Value) {
    Says(v, RateLimited) || Says(v, AbuseDenied) || (StatusDecides(v) && v.statusCode == Some(429))
  }

  /** An answer that rules out an effect of the write. */
  predicate RulesOutEffect(value: Option<Value>) {
    value.Some? && (Denied(value.value) || Limited(value.value))
  }

  /** The issue itself came back, without kind, code or status. */
  predicate BareIssue(v: Value) {
    v.kind.None? && v.code.None? && v.statusCode.None? && !v.self.number.Missing?
  }

  /**
   * How the answer to a write is classed, for every kind, code and status it may carry: a write had
   * no effect, or was refused for now, exactly when the answer says so; it succeeded exactly when
   * the gateway says so or hands back the issue; everything else may or may not have happened.
   */
  lemma ClassificationIsExact(value: Option<Value>)
    ensures var t := ClassifyCreateOutcome(value);
      && (t.PermanentNoEffect? <==> value.Some? && Denied(value.value))
      && (t.Throttled? <==> value.Some? && Limited(value.value))
      && (t.TransportOk? <==> value.Some? && (Says(value.value, KindOk) || BareIssue(value.value)))
      && (t.TransportOk? ==> t.issue == if Says(value.value, KindOk) then value.value.wrapped else Some(value.value.self))
  {
  }

  /**
   * A write that timed out, broke the server, lost its response or came back unreadable, one with a
   * code nobody knows, and one with a status from 500 on that no name overrules, may have happened.
   */
  lemma DoubtIsAmbiguous(v: Value)
    ensures Says(v, Timeout) || Says(v, ServerError) || Says(v, ResponseLost) || Says(v, MalformedReply) ==>
      ClassifyCreateOutcome(Some(v)) == Ambiguous
    ensures (v.kind.None? || v.kind.value.Untyped?) && v.code.Some? && v.code.value.Untyped? ==>
      ClassifyCreateOutcome(Some(v)) == Ambiguous
    ensures StatusDecides(v) && v.statusCode.Some? && v.statusCode.value >= 500 ==> ClassifyCreateOutcome(Some(v)) == Ambiguous
    ensures ClassifyCreateOutcome(None) == Ambiguous
  {
    ClassificationIsExact(Some(v));
  }

  predicate HasValidExternalIdentity(issue: Option<Issue>) {
    && issue.Some?
    && issue.value.number.Whole?
    && 0 < issue.value.number.n <= MAX_SAFE_INTEGER
    && issue.value.nodeId.Some? && issue.value.nodeId.value != ""
    && issue.value.htmlUrl.Some? && issue.value.htmlUrl.value != ""
  }

  // ---------------------------------------------------------------- readback

  datatype Expected = Expected(
    actionId: string, repo: string, title: string, userBody: string, labels: seq<string>)

  datatype Verdict =
    | ReadbackMismatch
    | MissingLabels(missing: seq<string>)
    | FullReadbackValid

  function LabelName(l: Label): Option<string> {
    match l
    case Plain(t) => Some(t)
    case Named(n) => Some(n)
    case Malformed => None
  }

  predicate Structural(issue: Option<Issue>, e: Expected) {
    && issue.Some?
    && issue.value.body.Some?
    && Includes(issue.value.body.value, MarkerFor(e.actionId))
    && issue.value.body.value == BuildOutgoingBody(e.userBody, e.actionId)
    && issue.value.repo == Some(e.repo)
    && issue.value.title == Some(e.title)
    && issue.value.state == Some("open")
  }

  function ActualLabels(lower: string -> string, labels: seq<Label>): set<string> {
    set l | l in labels && LabelName(l).Some? :: lower(LabelName(l).value)
  }

  function Missing(lower: string -> string, requested: seq<string>, actual: set<string>): (r: seq<string>)
    ensures forall l :: l in r <==> l in requested && lower(l) !in actual
  {
    if requested == [] then []
    else
      var rest := Missing(lower, requested[1..], actual);
      if lower(requested[0]) in actual then rest else [requested[0]] + rest
  }

  function ValidateReadback(lower: string -> string, issue: Option<Issue>, e: Expected): Verdict {
    if !Structural(issue, e) then ReadbackMismatch
    else
      var missing := Missing(lower, e.labels, ActualLabels(lower, issue.value.labels));
      if |missing| > 0 then MissingLabels(missing) else FullReadbackValid
  }

  /** What success promises of an issue, in the terms a person would check it by. */
  ghost predicate FullyApplied(lower: string -> string, issue: Issue, e: Expected) {
    && issue.repo == Some(e.repo)
    && issue.state == Some("open")
    && issue.title == Some(e.title)
    && issue.body == Some(BuildOutgoingBody(e.userBody, e.actionId))
    && forall l :: l in e.labels ==> Carries(lower, issue, l)
  }

  lemma OutgoingBodyCarriesMarker(userBody: string, actionId: string)
    ensures Includes(BuildOutgoingBody(userBody, actionId), MarkerFor(actionId))
  {
    var out := BuildOutgoingBody(userBody, actionId);
    var i := |userBody| + |SEPARATOR|;
    assert OccursAt(out, MarkerFor(actionId), i);
  }

  /** The issue carries a label, up to case. */
  ghost predicate Carries(lower: string -> string, issue: Issue, wanted: string) {
    exists t :: (Plain(t) in issue.labels || Named(t) in issue.labels) && lower(t) == lower(wanted)
  }

  lemma CarriedIsActual(lower: string -> string, issue: Issue, wanted: string)
    ensures lower(wanted) in ActualLabels(lower, issue.labels) <==> Carries(lower, issue, wanted)
  {
    if lower(wanted) in ActualLabels(lower, issue.labels) {
      var a :| a in issue.labels && LabelName(a).Some? && lower(LabelName(a).value) == lower(wanted);
      assert a == Plain(LabelName(a).value) || a == Named(LabelName(a).value);
    }
    if t :| (Plain(t) in issue.labels || Named(t) in issue.labels) && lower(t) == lower(wanted) {
      assert LabelName(Plain(t)) == Some(t) && LabelName(Named(t)) == Some(t);
    }
  }

  /**
   * Readback succeeds exactly on a fully applied issue, and it asks for labels exactly when
   * nothing else is wrong: then the labels it names are the requested ones the issue lacks.
   */
  lemma ReadbackIsExact(lower: string -> string, issue: Option<Issue>, e: Expected)
    ensures ValidateReadback(lower, issue, e).FullReadbackValid?
      <==> issue.Some? && FullyApplied(lower, issue.value, e)
    ensures ValidateReadback(lower, issue, e).MissingLabels?
      <==> issue.Some? && FullyApplied(lower, issue.value, e.(labels := [])) && !FullyApplied(lower, issue.value, e)
    ensures ValidateReadback(lower, issue, e).MissingLabels? ==>
      forall l :: l in ValidateReadback(lower, issue, e).missing <==> l in e.labels && !Carries(lower, issue.value, l)
  {
    OutgoingBodyCarriesMarker(e.userBody, e.actionId);
    if issue.Some? {
      var missing := Missing(lower, e.labels, ActualLabels(lower, issue.value.labels));
      forall l ensures l in missing <==> l in e.labels && !Carries(lower, issue.value, l) {
        CarriedIsActual(lower, issue.value, l);
      }
      if |missing| > 0 {
        assert missing[0] in missing;
      }
    }
  }

  /** One issue never passes readback, fully or partly, for two different declared actions. */
  lemma ReadbackIdentifiesAction(lower: string -> string, issue: Option<Issue>, e1: Expected, e2: Expected)
    requires !Includes(e1.userBody, RESERVED_MARKER_NAME) && !Includes(e2.userBody, RESERVED_MARKER_NAME)
    requires !ValidateReadback(lower, issue, e1).ReadbackMismatch?
    requires !ValidateReadback(lower, issue, e2).ReadbackMismatch?
    ensures e1.actionId == e2.actionId && e1.userBody == e2.userBody
    ensures e1.repo == e2.repo && e1.title == e2.title
  {
    OutgoingBodyIsInjective(e1.userBody, e1.actionId, e2.userBody, e2.actionId);
  }
}
