/**
 * Declaring an action: the bounded JSON check, the canonical form of the parameters, and the
 * idempotence of a declaration. Normalization, lower-casing, the size of the serialized
 * parameters and their digest are parameters, with only the laws that are used.
 */
module CanonicalParams {
  import opened Common
  import opened ActionReadback
  import opened LedgerSpec
  import opened LedgerInvariants
  import opened LedgerHistory

  const MAX_PARAMS_BYTES := 64 * 1024
  const MAX_NESTING_DEPTH := 8
  const MAX_JSON_KEYS := 64
  const MAX_ARRAY_ITEMS := 256
  const MAX_LABELS := 100
  const MAX_STRING_LENGTH := 48 * 1024
  const ALLOWED_PARAM_KEYS: set<string> := {"repo", "title", "body", "labels"}

  /** A JavaScript value; `Hole` is a gap in a sparse array and `NotJson` anything else JSON cannot hold. */
  datatype Json =
    | JNull
    | JBool(b: bool)
    | JNumber(n: int)
    | JString(s: string)
    | JArray(items: seq<Json>)
    | JObject(members: seq<Member>)
    | Undefined
    | Hole
    | NotJson

  datatype Member = Member(key: string, value: Json)

  // ---------------------------------------------------------------- bounded JSON

  /** Every part of a value is JSON and within its own bound. */
  predicate Bounded(j: Json, depth: nat) {
    depth <= MAX_NESTING_DEPTH &&
    match j
    case JString(s) => |s| <= MAX_STRING_LENGTH
    case JArray(items) => |items| <= MAX_ARRAY_ITEMS && forall k :: 0 <= k < |items| ==> Bounded(items[k], depth + 1)
    case JObject(members) => forall k :: 0 <= k < |members| ==> Bounded(members[k].value, depth + 1)
    case Undefined => false
    case Hole => false
    case NotJson => false
    case _ => true
  }

  /** The items of an array, the values of an object. */
  function Children(j: Json): (r: seq<Json>)
    ensures forall k :: 0 <= k < |r| ==> r[k] < j
  {
    match j
    case JArray(items) => items
    case JObject(members) => seq(|members|, i requires 0 <= i < |members| => members[i].value)
    case _ => []
  }

  /** The part of a value that a path of positions leads to. */
  predicate PartAt(j: Json, path: seq<nat>, part: Json)
    decreases |path|
  {
    if path == [] then part == j
    else path[0] < |Children(j)| && PartAt(Children(j)[path[0]], path[1..], part)
  }

  /** A part at some depth that may stand there: JSON, not too deep, not too long. */
  predicate MayStand(part: Json, depth: nat) {
    && depth <= 8 && !part.Undefined? && !part.Hole? && !part.NotJson?
    && (part.JString? ==> |part.s| <= 49152) && (part.JArray? ==> |part.items| <= 256)
  }

  ghost predicate AllMayStand(j: Json, depth: nat) {
    forall path, part :: PartAt(j, path, part) ==> MayStand(part, depth + |path|)
  }

  lemma PartOfChild(j: Json, k: nat, path: seq<nat>, part: Json)
    requires k < |Children(j)|
    ensures PartAt(j, [k] + path, part) <==> PartAt(Children(j)[k], path, part)
  {
    assert ([k] + path)[1..] == path;
  }

  /** A value is bounded exactly when each of its parts, however deep, may stand where it does. */
  lemma {:induction false} BoundedIsEveryPart(j: Json, depth: nat)
    ensures Bounded(j, depth) <==> AllMayStand(j, depth)
    decreases j
  {
    forall k: nat | k < |Children(j)| ensures Bounded(Children(j)[k], depth + 1) <==> AllMayStand(Children(j)[k], depth + 1) {
      BoundedIsEveryPart(Children(j)[k], depth + 1);
    }
    BoundedByChildren(j, depth);
    if AllMayStand(j, depth) {
      assert PartAt(j, [], j);
      forall k: nat | k < |Children(j)| ensures AllMayStand(Children(j)[k], depth + 1) {
        forall path, part | PartAt(Children(j)[k], path, part) ensures MayStand(part, depth + 1 + |path|) {
          PartOfChild(j, k, path, part);
        }
      }
    }
    if MayStand(j, depth) && forall k: nat :: k < |Children(j)| ==> AllMayStand(Children(j)[k], depth + 1) {
      forall path, part | PartAt(j, path, part) ensures MayStand(part, depth + |path|) {
        if path != [] { assert PartAt(Children(j)[path[0]], path[1..], part); }
      }
    }
  }

  lemma BoundedByChildren(j: Json, depth: nat)
    ensures Bounded(j, depth)
      <==> MayStand(j, depth) && forall k: nat :: k < |Children(j)| ==> Bounded(Children(j)[k], depth + 1)
  {
    if j.JObject? {
      assert forall k :: 0 <= k < |j.members| ==> Children(j)[k] == j.members[k].value;
    } else if j.JArray? {
      assert Children(j) == j.items;
    }
  }

  function KeyCount(j: Json): nat {
    match j
    case JArray(items) => ItemKeys(items)
    case JObject(members) => |members| + MemberKeys(members)
    case _ => 0
  }

  function ItemKeys(items: seq<Json>): nat {
    if items == [] then 0 else KeyCount(items[0]) + ItemKeys(items[1..])
  }

  function MemberKeys(members: seq<Member>): nat {
    if members == [] then 0 else KeyCount(members[0].value) + MemberKeys(members[1..])
  }

  lemma MemberKeysSplit(members: seq<Member>, i: nat)
    requires i < |members|
    ensures MemberKeys(members[i..]) == KeyCount(members[i].value) + MemberKeys(members[i + 1..])
  {
    assert members[i..][1..] == members[i + 1..];
  }

  /** The walk and its running key counter. */
  class JsonVisitor {
    var keyCount: nat

    constructor ()
      ensures keyCount == 0
    {
      keyCount := 0;
    }

    method Visit(current: Json, depth: nat) returns (ok: bool)
      requires keyCount <= MAX_JSON_KEYS
      modifies this
      ensures ok <==> Bounded(current, depth) && old(keyCount) + KeyCount(current) <= MAX_JSON_KEYS
      ensures ok ==> keyCount == old(keyCount) + KeyCount(current)
      decreases current
    {
      if depth > MAX_NESTING_DEPTH { return false; }
      match current
      case JString(s) => return |s| <= MAX_STRING_LENGTH;
      case JArray(items) =>
        if |items| > MAX_ARRAY_ITEMS { return false; }
        assert items[0..] == items;
        for i := 0 to |items|
          invariant keyCount <= MAX_JSON_KEYS
          invariant forall k :: 0 <= k < i ==> Bounded(items[k], depth + 1)
          invariant keyCount + ItemKeys(items[i..]) == old(keyCount) + ItemKeys(items)
        {
          if items[i].Hole? { return false; }
          var fine := Visit(items[i], depth + 1);
          if !fine { return false; }
        }
        return true;
      case JObject(members) =>
        keyCount := keyCount + |members|;
        if keyCount > MAX_JSON_KEYS { return false; }
        assert members[0..] == members;
        for i := 0 to |members|
          invariant keyCount <= MAX_JSON_KEYS
          invariant forall k :: 0 <= k < i ==> Bounded(members[k].value, depth + 1)
          invariant keyCount + MemberKeys(members[i..]) == old(keyCount) + |members| + MemberKeys(members)
        {
          MemberKeysSplit(members, i);
          var fine := Visit(members[i].value, depth + 1);
          if !fine { return false; }
        }
        return true;
      case Undefined => return false;
      case Hole => return false;
      case NotJson => return false;
      case _ => return true;
    }
  }

  /** A value is accepted exactly when all its parts are in bounds and it has few enough keys in all. */
  method ValidateBoundedJson(value: Json) returns (ok: bool)
    ensures ok <==> Bounded(value, 0) && KeyCount(value) <= MAX_JSON_KEYS
  {
    var visitor := new JsonVisitor();
    ok := visitor.Visit(value, 0);
  }

  // ---------------------------------------------------------------- ordered labels

  /** The order of the default sort, character by character, a proper prefix first. */
  predicate Less(a: string, b: string) {
    if b == "" then false
    else if a == "" then true
    else a[0] < b[0] || (a[0] == b[0] && Less(a[1..], b[1..]))
  }

  lemma LessTotal(a: string, b: string)
    ensures a == b || Less(a, b) || Less(b, a)
  {
    if a != "" && b != "" && a[0] == b[0] {
      LessTotal(a[1..], b[1..]);
      assert a == [a[0]] + a[1..] && b == [b[0]] + b[1..];
    }
  }

  lemma LessTransitive(a: string, b: string, d: string)
    requires Less(a, b) && Less(b, d)
    ensures Less(a, d)
  {
    if a != "" && a[0] == b[0] == d[0] {
      LessTransitive(a[1..], b[1..], d[1..]);
    }
  }

  lemma LessIrreflexive(a: string)
    ensures !Less(a, a)
  {
  }

  ghost predicate StrictlySorted(s: seq<string>) {
    forall i, j :: 0 <= i < j < |s| ==> Less(s[i], s[j])
  }

  /** `new Set(values)`: each value once, where it first occurs. */
  function Distinct(values: seq<string>): (r: seq<string>)
    ensures forall v :: v in r <==> v in values
    ensures forall i, j :: 0 <= i < j < |r| ==> r[i] != r[j]
  {
    if values == [] then []
    else
      var n := |values| - 1;
      var rest := Distinct(values[..n]);
      if values[n] in rest then rest else rest + [values[n]]
  }

  function Insert(x: string, sorted: seq<string>): seq<string> {
    if sorted == [] then [x]
    else if Less(x, sorted[0]) then [x] + sorted
    else [sorted[0]] + Insert(x, sorted[1..])
  }

  function Sort(values: seq<string>): seq<string> {
    if values == [] then [] else Insert(values[0], Sort(values[1..]))
  }

  lemma InsertSorts(x: string, sorted: seq<string>)
    requires StrictlySorted(sorted) && x !in sorted
    ensures StrictlySorted(Insert(x, sorted))
    ensures forall v :: v in Insert(x, sorted) <==> v == x || v in sorted
  {
    if sorted != [] {
      if Less(x, sorted[0]) {
        forall j | 0 <= j < |sorted| ensures Less(x, sorted[j]) {
          if j > 0 { LessTransitive(x, sorted[0], sorted[j]); }
        }
      } else {
        LessTotal(x, sorted[0]);
        InsertSorts(x, sorted[1..]);
        var rest := Insert(x, sorted[1..]);
        forall j | 0 <= j < |rest| ensures Less(sorted[0], rest[j]) {
          assert rest[j] in rest;
        }
      }
    }
  }

  lemma SortSorts(values: seq<string>)
    requires forall i, j :: 0 <= i < j < |values| ==> values[i] != values[j]
    ensures StrictlySorted(Sort(values))
    ensures forall v :: v in Sort(values) <==> v in values
  {
    if values != [] {
      SortSorts(values[1..]);
      InsertSorts(values[0], Sort(values[1..]));
    }
  }

  lemma HasMember(b: seq<string>)
    requires b != []
    ensures exists v :: v in b
  {
    assert b[0] in b;
  }

  /** A strictly sorted sequence is determined by its members. */
  lemma SortedUnique(a: seq<string>, b: seq<string>)
    requires StrictlySorted(a) && StrictlySorted(b)
    requires forall v :: v in a <==> v in b
    ensures a == b
  {
    if a == [] {
      if b != [] { HasMember(b); }
    } else {
      assert a[0] in b && b != [];
      assert b[0] in a;
      HeadsAgree(a, b);
      forall v ensures v in a[1..] <==> v in b[1..] {
        TailMembers(a, v);
        TailMembers(b, v);
      }
      SortedUnique(a[1..], b[1..]);
      assert a == [a[0]] + a[1..] && b == [b[0]] + b[1..];
    }
  }

  lemma TailMembers(a: seq<string>, v: string)
    requires StrictlySorted(a) && a != []
    ensures v in a[1..] <==> v in a && v != a[0]
  {
    assert a == [a[0]] + a[1..];
    if v in a[1..] {
      var k :| 0 <= k < |a[1..]| && a[1..][k] == v;
      assert Less(a[0], a[k + 1]);
      LessIrreflexive(a[0]);
    }
  }

  lemma HeadsAgree(a: seq<string>, b: seq<string>)
    requires StrictlySorted(a) && StrictlySorted(b) && a != [] && b != []
    requires a[0] in b && b[0] in a
    ensures a[0] == b[0]
  {
    if a[0] != b[0] {
      assert Less(b[0], a[0]);
      assert Less(a[0], b[0]);
      LessTransitive(a[0], b[0], a[0]);
      LessIrreflexive(a[0]);
    }
  }

  // ---------------------------------------------------------------- canonical parameters

  /** The text functions of the platform and the serialized size and digest. */
  datatype Platform = Platform(
    nfc: string -> string, lower: string -> string, bytes: Params -> nat, digest: Params -> string)

  function MapText(f: string -> string, values: seq<string>): seq<string> {
    seq(|values|, i requires 0 <= i < |values| => f(values[i]))
  }

  function CanonicalLabels(p: Platform, labels: seq<string>): seq<string> {
    Sort(Distinct(MapText(p.nfc, labels)))
  }

  /** The second pass over the assembled object normalizes every string once more. */
  function Canonical(p: Platform, repo: string, title: string, body: string, labels: seq<string>): Params {
    Params(p.nfc(p.lower(p.nfc(repo))), p.nfc(p.nfc(title)), p.nfc(p.nfc(body)),
           MapText(p.nfc, CanonicalLabels(p, labels)))
  }

  function Lookup(members: seq<Member>, key: string): Json {
    if members == [] then Undefined
    else if members[0].key == key then members[0].value
    else Lookup(members[1..], key)
  }

  predicate AllStrings(items: seq<Json>) {
    forall k :: 0 <= k < |items| ==> items[k].JString?
  }

  function Strings(items: seq<Json>): seq<string>
    requires AllStrings(items)
  {
    seq(|items|, i requires 0 <= i < |items| => items[i].s)
  }

  /** Which inputs are accepted at all, in the caller's terms. */
  predicate Acceptable(params: Json) {
    && params.JObject?
    && (forall k :: 0 <= k < |params.members| ==> params.members[k].key in ALLOWED_PARAM_KEYS)
    && TextField(Lookup(params.members, "repo"))
    && TextField(Lookup(params.members, "title"))
    && TextField(Lookup(params.members, "body"))
    && LabelsField(Lookup(params.members, "labels"))
  }

  predicate TextField(j: Json) {
    j.JString? && |j.s| <= MAX_STRING_LENGTH
  }

  /** Absent labels are `undefined`; a label list has at most a hundred strings and no gaps. */
  predicate LabelsField(j: Json) {
    j.Undefined? ||
    (j.JArray? && |j.items| <= MAX_LABELS && forall k :: 0 <= k < |j.items| ==> TextField(j.items[k]))
  }

  /**
   * When parameters are refused: they are no object, they have a member of another name, a text is
   * missing, no string or too long, or the labels are neither absent nor up to a hundred such strings.
   */
  lemma RefusedExactly(params: Json)
    ensures !Acceptable(params) <==>
      || !params.JObject?
      || (exists m :: m in params.members
            && m.key != "repo" && m.key != "title" && m.key != "body" && m.key != "labels")
      || BadText(Lookup(params.members, "repo")) || BadText(Lookup(params.members, "title"))
      || BadText(Lookup(params.members, "body"))
      || var labels := Lookup(params.members, "labels");
         && labels != Undefined
         && (labels.JArray? ==> |labels.items| > 100 || exists j :: j in labels.items && BadText(j))
  {
    forall j: Json ensures TextField(j) <==> !BadText(j) {}
    if params.JObject? {
      forall m | m in params.members && m.key !in ALLOWED_PARAM_KEYS
        ensures exists k :: 0 <= k < |params.members| && params.members[k].key !in ALLOWED_PARAM_KEYS
      {
        var k :| 0 <= k < |params.members| && params.members[k] == m;
      }
      forall k | 0 <= k < |params.members| ensures params.members[k] in params.members {}
    }
  }

  predicate BadText(j: Json) {
    !j.JString? || |j.s| > 49152
  }

  function LabelsOf(params: Json): seq<string>
    requires Acceptable(params)
  {
    var j := Lookup(params.members, "labels");
    if j.Undefined? then [] else Strings(j.items)
  }

  function CanonicalOf(p: Platform, params: Json): Params
    requires Acceptable(params)
  {
    Canonical(p, Lookup(params.members, "repo").s, Lookup(params.members, "title").s, Lookup(params.members, "body").s,
              LabelsOf(params))
  }

  lemma LabelsBounded(items: seq<Json>)
    requires |items| <= MAX_LABELS
    ensures Bounded(JArray(items), 1) && AllStrings(items) <==> forall k :: 0 <= k < |items| ==> TextField(items[k])
    ensures AllStrings(items) ==> ItemKeys(items) == 0
  {
    if items != [] {
      LabelsBounded(items[1..]);
      assert forall k :: 0 <= k < |items| ==> TextField(items[k]) ==> Bounded(items[k], 2);
    }
  }

  method CanonicalizeParams(p: Platform, params: Json) returns (r: Result<Params>)
    ensures r.Ok? <==> Acceptable(params)
    ensures r.Ok? ==> r.value == CanonicalOf(p, params)
    ensures r.Err? ==> r.error == BadRequest
  {
    if !params.JObject? { return Err(BadRequest); }
    var repo, title, body := Lookup(params.members, "repo"), Lookup(params.members, "title"), Lookup(params.members, "body");
    var labels := Lookup(params.members, "labels");
    for i := 0 to |params.members|
      invariant forall k :: 0 <= k < i ==> params.members[k].key in ALLOWED_PARAM_KEYS
    {
      if params.members[i].key !in ALLOWED_PARAM_KEYS { return Err(BadRequest); }
    }
    if !labels.Undefined? && !labels.JArray? { return Err(BadRequest); }
    var labelValues: seq<Json> := [];
    if labels.JArray? {
      if |labels.items| > MAX_LABELS { return Err(BadRequest); }
      for i := 0 to |labels.items|
        invariant labelValues == labels.items[..i]
        invariant forall k :: 0 <= k < i ==> !labels.items[k].Hole?
      {
        if labels.items[i].Hole? { return Err(BadRequest); }
        labelValues := labelValues + [labels.items[i]];
      }
      assert labels.items[..|labels.items|] == labels.items;
    }
    LabelsBounded(labelValues);
    var assembled := JObject(FourFields(repo, title, body, JArray(labelValues)));
    AssembledIsBounded(repo, title, body, labelValues);
    var fine := ValidateBoundedJson(assembled);
    if !fine { return Err(BadRequest); }
    if !AllStrings(labelValues) { return Err(BadRequest); }
    if !repo.JString? || !title.JString? || !body.JString? { return Err(BadRequest); }
    return Ok(Canonical(p, repo.s, title.s, body.s, Strings(labelValues)));
  }

  function FourFields(repo: Json, title: Json, body: Json, labels: Json): seq<Member> {
    [Member("repo", repo), Member("title", title), Member("body", body), Member("labels", labels)]
  }

  lemma FourKeys(repo: Json, title: Json, body: Json, labels: Json)
    ensures MemberKeys(FourFields(repo, title, body, labels))
      == KeyCount(repo) + KeyCount(title) + KeyCount(body) + KeyCount(labels)
  {
    var members := FourFields(repo, title, body, labels);
    MemberKeysSplit(members, 0);
    MemberKeysSplit(members, 1);
    MemberKeysSplit(members, 2);
    MemberKeysSplit(members, 3);
    assert members[0..] == members && members[4..] == [];
  }

  lemma FourBounds(repo: Json, title: Json, body: Json, labels: Json)
    ensures Bounded(JObject(FourFields(repo, title, body, labels)), 0)
      <==> Bounded(repo, 1) && Bounded(title, 1) && Bounded(body, 1) && Bounded(labels, 1)
  {
    var members := FourFields(repo, title, body, labels);
    assert members[0].value == repo && members[1].value == title;
    assert members[2].value == body && members[3].value == labels;
    if Bounded(repo, 1) && Bounded(title, 1) && Bounded(body, 1) && Bounded(labels, 1) {
      forall k | 0 <= k < |members| ensures Bounded(members[k].value, 1) {
        assert k == 0 || k == 1 || k == 2 || k == 3;
      }
    }
  }

  /** The bounds of the assembled object are the bounds of its four fields. */
  lemma AssembledIsBounded(repo: Json, title: Json, body: Json, labels: seq<Json>)
    requires |labels| <= MAX_LABELS
    ensures
      var j := JObject(FourFields(repo, title, body, JArray(labels)));
      (Bounded(j, 0) && KeyCount(j) <= MAX_JSON_KEYS && AllStrings(labels) && repo.JString? && title.JString? && body.JString?)
      <==> (TextField(repo) && TextField(title) && TextField(body) && forall k :: 0 <= k < |labels| ==> TextField(labels[k]))
  {
    LabelsBounded(labels);
    FourBounds(repo, title, body, JArray(labels));
    FourKeys(repo, title, body, JArray(labels));
  }

  // ---------------------------------------------------------------- what canonical means

  ghost predicate Idempotent(f: string -> string) {
    forall s :: f(f(s)) == f(s)
  }

  ghost predicate Spelt(f: string -> string, labels: seq<string>, v: string) {
    exists l :: l in labels && f(l) == v
  }

  lemma MappedMembers(f: string -> string, values: seq<string>, v: string)
    ensures v in MapText(f, values) <==> Spelt(f, values, v)
  {
    if v in MapText(f, values) {
      var k :| 0 <= k < |values| && MapText(f, values)[k] == v;
      assert values[k] in values;
    }
    if l :| l in values && f(l) == v {
      var k :| 0 <= k < |values| && values[k] == l;
      assert MapText(f, values)[k] == v;
    }
  }

  /** Canonical labels are strictly sorted and are exactly the normalized labels. */
  lemma CanonicalLabelsAreSorted(p: Platform, labels: seq<string>)
    requires Idempotent(p.nfc)
    ensures StrictlySorted(CanonicalLabels(p, labels))
    ensures forall v :: v in CanonicalLabels(p, labels) <==> Spelt(p.nfc, labels, v)
    ensures MapText(p.nfc, CanonicalLabels(p, labels)) == CanonicalLabels(p, labels)
  {
    var mapped := MapText(p.nfc, labels);
    SortSorts(Distinct(mapped));
    forall v ensures v in CanonicalLabels(p, labels) <==> Spelt(p.nfc, labels, v) {
      MappedMembers(p.nfc, labels, v);
    }
    var out := CanonicalLabels(p, labels);
    forall k | 0 <= k < |out| ensures p.nfc(out[k]) == out[k] {
      assert out[k] in out;
    }
  }

  ghost predicate SameNormalized(p: Platform, a: seq<string>, b: seq<string>) {
    forall v :: Spelt(p.nfc, a, v) <==> Spelt(p.nfc, b, v)
  }

  /** They depend only on the set of normalized labels: not on order, repetition or spelling. */
  lemma CanonicalLabelsDependOnSet(p: Platform, a: seq<string>, b: seq<string>)
    requires Idempotent(p.nfc)
    ensures CanonicalLabels(p, a) == CanonicalLabels(p, b) <==> SameNormalized(p, a, b)
  {
    CanonicalLabelsAreSorted(p, a);
    CanonicalLabelsAreSorted(p, b);
    if SameNormalized(p, a, b) {
      SortedUnique(CanonicalLabels(p, a), CanonicalLabels(p, b));
    }
  }

  /** The first member of a name. */
  predicate Names(members: seq<Member>, i: nat, key: string) {
    i < |members| && members[i].key == key && forall j :: 0 <= j < i ==> members[j].key != key
  }

  lemma {:induction false} LookupIsFirst(members: seq<Member>, key: string)
    ensures forall i: nat :: Names(members, i, key) ==> Lookup(members, key) == members[i].value
    ensures (forall m :: m in members ==> m.key != key) ==> Lookup(members, key) == Undefined
  {
    if members != [] && members[0].key != key {
      LookupIsFirst(members[1..], key);
      forall i: nat | Names(members, i, key) ensures Lookup(members, key) == members[i].value {
        assert Names(members[1..], i - 1, key);
      }
      assert forall m :: m in members[1..] ==> m in members;
    }
  }

  /** Each canonical field comes from the input's member of that name and from nothing else. */
  lemma FieldsKeepTheirNames(p: Platform, params: Json, i: nat)
    requires Acceptable(params) && i < |params.members| && Names(params.members, i, params.members[i].key)
    ensures var m, c := params.members[i], CanonicalOf(p, params);
      && (m.key == "repo" ==> m.value.JString? && c.repo == p.nfc(p.lower(p.nfc(m.value.s))))
      && (m.key == "title" ==> m.value.JString? && c.title == p.nfc(p.nfc(m.value.s)))
      && (m.key == "body" ==> m.value.JString? && c.body == p.nfc(p.nfc(m.value.s)))
  {
    LookupIsFirst(params.members, params.members[i].key);
  }

  predicate NormalizesTo(p: Platform, j: Json, text: string) {
    j.JString? && p.nfc(j.s) == text
  }

  /** The canonical labels are those of the member of that name, and none when there is none. */
  lemma LabelsKeepTheirName(p: Platform, params: Json, text: string)
    requires Acceptable(params) && Idempotent(p.nfc)
    ensures (forall m :: m in params.members ==> m.key != "labels") ==> CanonicalOf(p, params).labels == []
    ensures forall i: nat :: Names(params.members, i, "labels") && params.members[i].value.JArray? ==>
      (text in CanonicalOf(p, params).labels
       <==> exists j :: j in params.members[i].value.items && NormalizesTo(p, j, text))
  {
    LookupIsFirst(params.members, "labels");
    var labels := LabelsOf(params);
    CanonicalLabelsAreSorted(p, labels);
    if Lookup(params.members, "labels").JArray? {
      StringsSpell(p, Lookup(params.members, "labels").items, text);
    }
  }

  lemma StringsSpell(p: Platform, items: seq<Json>, text: string)
    requires AllStrings(items)
    ensures Spelt(p.nfc, Strings(items), text) <==> exists j :: j in items && NormalizesTo(p, j, text)
  {
    if j :| j in items && NormalizesTo(p, j, text) {
      var k :| 0 <= k < |items| && items[k] == j;
      assert Strings(items)[k] in Strings(items);
    }
    if l :| l in Strings(items) && p.nfc(l) == text {
      var k :| 0 <= k < |items| && Strings(items)[k] == l;
      assert items[k] in items;
    }
  }

  // ---------------------------------------------------------------- declaring twice

  /** Two inputs that spell the same intent: equal text fields up to normalization, equal label sets. */
  ghost predicate SameInput(p: Platform, a: Json, b: Json)
    requires Acceptable(a) && Acceptable(b)
  {
    && p.lower(p.nfc(Lookup(a.members, "repo").s)) == p.lower(p.nfc(Lookup(b.members, "repo").s))
    && p.nfc(Lookup(a.members, "title").s) == p.nfc(Lookup(b.members, "title").s)
    && p.nfc(Lookup(a.members, "body").s) == p.nfc(Lookup(b.members, "body").s)
    && SameNormalized(p, LabelsOf(a), LabelsOf(b))
  }

  /** The whole declaration: canonicalize, check the size, then the ledger transaction. */
  function DeclareRaw(p: Platform, s: Ledger, task: string, slot: string, params: Json, reissues: Option<string>,
                      newId: string, now: int): (Ledger, Result<string>)
  {
    if !Acceptable(params) then (s, Err(BadRequest))
    else
      var canonical := CanonicalOf(p, params);
      if p.bytes(canonical) > MAX_PARAMS_BYTES then (s, Err(BadRequest))
      else Declare(s, task, slot, canonical, p.digest(canonical), reissues, newId, now)
  }

  lemma IntentIsFound(s: Ledger, max: nat, id: string)
    requires Core(s, max) && id in s.rows
    ensures FindIntent(s.rows, s.order, s.rows[id].task, s.rows[id].slot) == Some(id)
  {
    var found := FindIntent(s.rows, s.order, s.rows[id].task, s.rows[id].slot);
    assert id in s.order;
  }

  /** An input that passes every check of its own. */
  predicate Declarable(p: Platform, params: Json, reissues: Option<string>) {
    && Acceptable(params)
    && p.bytes(CanonicalOf(p, params)) <= 65536
    && reissues != Some("")
    && !Includes(CanonicalOf(p, params).body, RESERVED_MARKER_NAME)
  }

  /** The row an accepted declaration answers with holds its intent. */
  lemma DeclaredIntent(p: Platform, s: Ledger, max: nat, task: string, slot: string, a: Json, reissues: Option<string>,
                       newId: string, now: int, id: string)
    requires Core(s, max) && DeclareRaw(p, s, task, slot, a, reissues, newId, now).1 == Ok(id)
    ensures Declarable(p, a, reissues) && task != "" && slot != ""
    ensures var s1 := DeclareRaw(p, s, task, slot, a, reissues, newId, now).0;
      && Core(s1, max) && id in s1.rows
      && s1.rows[id].task == task && s1.rows[id].slot == slot
      && s1.rows[id].hash == p.digest(CanonicalOf(p, a)) && s1.rows[id].reissues == reissues
  {
    DeclareKeepsCore(s, task, slot, CanonicalOf(p, a), p.digest(CanonicalOf(p, a)), reissues, newId, now, max);
  }

  /** Declaring on a slot that is taken never changes anything; its answer is a matter of the digest. */
  lemma TakenSlot(p: Platform, s: Ledger, max: nat, id: string, b: Json, reissues: Option<string>, newId: string, now: int)
    requires Core(s, max) && id in s.rows && s.rows[id].task != "" && s.rows[id].slot != ""
    ensures DeclareRaw(p, s, s.rows[id].task, s.rows[id].slot, b, reissues, newId, now)
      == (s, if !Declarable(p, b, reissues) then Err(BadRequest)
             else if p.digest(CanonicalOf(p, b)) == s.rows[id].hash && reissues == s.rows[id].reissues then Ok(id)
             else Err(Conflict))
  {
    IntentIsFound(s, max, id);
  }

  /**
   * What a second declaration on the same slot answers, whatever calls were made since the first:
   * the same action if it is the same intent, a conflict if its digest or the action it reissues
   * differs, and an error if it would not be accepted anywhere. It never changes anything.
   */
  lemma RedeclareIsExact(p: Platform, s: Ledger, max: nat, task: string, slot: string, a: Json, reissues: Option<string>,
                         firstId: string, at: int, id: string, ops: seq<Op>,
                         b: Json, again: Option<string>, newId: string, now: int)
    requires Core(s, max) && DeclareRaw(p, s, task, slot, a, reissues, firstId, at).1 == Ok(id)
    requires forall op :: op in ops ==> WithinBudget(op, max)
    ensures var s2 := PerformAll(DeclareRaw(p, s, task, slot, a, reissues, firstId, at).0, ops);
      DeclareRaw(p, s2, task, slot, b, again, newId, now)
      == (s2, if !Declarable(p, b, again) then Err(BadRequest)
              else if p.digest(CanonicalOf(p, b)) == p.digest(CanonicalOf(p, a)) && again == reissues then Ok(id)
              else Err(Conflict))
  {
    DeclaredIntent(p, s, max, task, slot, a, reissues, firstId, at, id);
    var s1 := DeclareRaw(p, s, task, slot, a, reissues, firstId, at).0;
    IntentIsKept(s1, ops, max, id);
    TakenSlot(p, PerformAll(s1, ops), max, id, b, again, newId, now);
  }

  /**
   * Declaring is idempotent: once a declaration was accepted, and after any further calls,
   * declaring the same intent again, with its labels permuted, repeated or spelled differently,
   * returns the same action and changes nothing, not even the event log.
   */
  lemma RedeclareIsIdempotent(p: Platform, s: Ledger, max: nat, task: string, slot: string, a: Json,
                              reissues: Option<string>, firstId: string, at: int, id: string, ops: seq<Op>,
                              b: Json, newId: string, now: int)
    requires Idempotent(p.nfc) && Core(s, max)
    requires DeclareRaw(p, s, task, slot, a, reissues, firstId, at).1 == Ok(id)
    requires forall op :: op in ops ==> WithinBudget(op, max)
    requires Acceptable(a) && Acceptable(b) && SameInput(p, a, b)
    ensures var s2 := PerformAll(DeclareRaw(p, s, task, slot, a, reissues, firstId, at).0, ops);
      DeclareRaw(p, s2, task, slot, b, reissues, newId, now) == (s2, Ok(id))
  {
    CanonicalLabelsDependOnSet(p, LabelsOf(a), LabelsOf(b));
    assert CanonicalOf(p, a) == CanonicalOf(p, b);
    DeclaredIntent(p, s, max, task, slot, a, reissues, firstId, at, id);
    RedeclareIsExact(p, s, max, task, slot, a, reissues, firstId, at, id, ops, b, reissues, newId, now);
  }
}
