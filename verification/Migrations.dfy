/**
 * The migration runner: files are named by version, each pending one is executed once, in
 * ascending order and in its own transaction, and recorded with a checksum of its content.
 */
module Migrations {
  import opened Common

  /** A file of the migration directory; `content` is `None` when it cannot be read. */
  datatype File = File(name: string, content: Option<string>)

  datatype Migration = Migration(version: nat, name: string, content: Option<string>)

  /** The recorded versions with their checksums, `None` for rows older than the checksum column. */
  type Schema = map<nat, Option<string>>

  /** What one call finds: the directory, and which migrations would commit if they were executed. */
  datatype Call = Call(files: seq<File>, commits: string -> bool)

  /** The database: the recorded versions, and the versions executed so far, in order. */
  datatype Db = Db(schema: Schema, executed: seq<nat>)

  // ---------------------------------------------------------------- file names

  predicate IsDigit(c: char) {
    '0' <= c <= '9'
  }

  /** How many digits the name starts with. */
  function Digits(s: string): (n: nat)
    ensures n <= |s|
    ensures n < |s| ==> !IsDigit(s[n])
    ensures forall k :: 0 <= k < n ==> IsDigit(s[k])
  {
    if s == "" || !IsDigit(s[0]) then 0 else 1 + Digits(s[1..])
  }

  function Value(digits: string): nat
    requires forall k :: 0 <= k < |digits| ==> IsDigit(digits[k])
  {
    if digits == "" then 0
    else
      assert IsDigit(digits[|digits| - 1]);
      Value(digits[..|digits| - 1]) * 10 + (digits[|digits| - 1] as int - '0' as int)
  }

  lemma TenDigits(c: char)
    ensures IsDigit(c) <==> c in {'0', '1', '2', '3', '4', '5', '6', '7', '8', '9'}
  {
  }

  function Power(n: nat): nat {
    if n == 0 then 1 else 10 * Power(n - 1)
  }

  /** Each digit at its place: the one before `n` others counts for that power of ten. */
  function PlaceSum(digits: string): int
    requires forall k :: 0 <= k < |digits| ==> IsDigit(digits[k])
  {
    if digits == "" then 0
    else
      assert IsDigit(digits[0]);
      (digits[0] as int - '0' as int) * Power(|digits| - 1) + PlaceSum(digits[1..])
  }

  /** The number of a file name is read by place value, */
  lemma {:induction false} ValueIsPositional(digits: string)
    requires forall k :: 0 <= k < |digits| ==> IsDigit(digits[k])
    ensures Value(digits) == PlaceSum(digits)
  {
    if digits != "" {
      var front, c := digits[..|digits| - 1], digits[|digits| - 1];
      ValueIsPositional(front);
      PlaceSumAppends(front, c);
      assert digits == front + [c];
    }
  }

  /** and zeros in front make no difference. */
  lemma {:induction false} LeadingZero(digits: string)
    requires forall k :: 0 <= k < |digits| ==> IsDigit(digits[k])
    ensures Value(['0'] + digits) == Value(digits)
  {
    var padded := ['0'] + digits;
    if digits == "" {
      assert padded[..0] == "";
    } else {
      LeadingZero(digits[..|digits| - 1]);
      assert padded[..|digits|] == ['0'] + digits[..|digits| - 1];
    }
  }

  lemma TenTimes(a: int, b: int)
    ensures a * (10 * b) == 10 * (a * b)
  {
  }

  lemma {:induction false} PlaceSumAppends(digits: string, c: char)
    requires IsDigit(c) && forall k :: 0 <= k < |digits| ==> IsDigit(digits[k])
    ensures PlaceSum(digits + [c]) == 10 * PlaceSum(digits) + (c as int - '0' as int)
  {
    if digits != "" {
      PlaceSumAppends(digits[1..], c);
      assert (digits + [c])[1..] == digits[1..] + [c];
      TenTimes(digits[0] as int - '0' as int, Power(|digits| - 1));
    } else {
      assert digits + [c] == [c] && [c][1..] == "";
    }
  }

  predicate EndsWithSql(s: string) {
    |s| >= 4 && s[|s| - 4..] == ".sql"
  }

  /** The names a call looks at are those that end so, whatever stands before. */
  lemma ScriptsEndSo(stem: string, name: string)
    ensures EndsWithSql(stem + ".sql")
    ensures EndsWithSql(name) ==> name == name[..|name| - 4] + ".sql"
  {
    assert (stem + ".sql")[|stem|..] == ".sql";
  }

  /** The version of a well-formed name: digits, an underscore, a title on one line, the extension. */
  function VersionOf(name: string): Option<nat> {
    var n := Digits(name);
    if n == 0 || n >= |name| || name[n] != '_' then None
    else
      var rest := name[n + 1..];
      if |rest| >= 5 && EndsWithSql(rest) && (forall k :: 0 <= k < |rest| - 4 ==> !IsLineTerminator(rest[k]))
      then Some(Value(name[..n]))
      else None
  }

  predicate Title(s: string) {
    s != "" && forall k :: 0 <= k < |s| ==> !IsLineTerminator(s[k])
  }

  predicate Number(s: string) {
    s != "" && forall k :: 0 <= k < |s| ==> IsDigit(s[k])
  }

  lemma {:induction false} DigitsOf(digits: string, rest: string)
    requires forall k :: 0 <= k < |digits| ==> IsDigit(digits[k])
    requires rest != "" && !IsDigit(rest[0])
    ensures Digits(digits + rest) == |digits|
  {
    if digits == "" {
      assert digits + rest == rest;
    } else {
      assert (digits + rest)[1..] == digits[1..] + rest;
      DigitsOf(digits[1..], rest);
    }
  }

  /** Every number, underscore, title and extension make a name with that version, */
  lemma NameHasVersion(digits: string, title: string)
    requires Number(digits) && Title(title)
    ensures VersionOf(digits + "_" + title + ".sql") == Some(Value(digits))
  {
    var rest := "_" + title + ".sql";
    var name := digits + rest;
    assert digits + "_" + title + ".sql" == name;
    DigitsOf(digits, rest);
    assert name[..|digits|] == digits && name[|digits| + 1..] == title + ".sql";
    VersionIsRead(name, title);
  }

  lemma VersionIsRead(name: string, title: string)
    requires var n := Digits(name);
      0 < n < |name| && name[n] == '_' && name[n + 1..] == title + ".sql" && Title(title)
    ensures VersionOf(name) == Some(Value(name[..Digits(name)]))
  {
    var rest := title + ".sql";
    assert rest[|rest| - 4..] == ".sql" && rest[..|rest| - 4] == title;
  }

  /** and no other name has one. */
  lemma VersionNeedsName(name: string) returns (digits: string, title: string)
    requires VersionOf(name).Some?
    ensures Number(digits) && Title(title) && name == digits + "_" + title + ".sql"
  {
    var n := Digits(name);
    digits, title := name[..n], name[n + 1..][..|name| - n - 5];
    assert name == name[..n] + [name[n]] + name[n + 1..];
    assert name[n + 1..] == title + ".sql";
  }

  predicate Acceptable(name: string) {
    VersionOf(name).Some? && 0 < VersionOf(name).value <= MAX_SAFE_INTEGER
  }

  predicate Seen(ms: seq<Migration>, version: nat) {
    exists i :: 0 <= i < |ms| && ms[i].version == version
  }

  /** The migrations of a directory in directory order; `None` for a bad name or a repeated version. */
  function Listed(files: seq<File>): Option<seq<Migration>> {
    if files == [] then Some([])
    else
      var f := files[|files| - 1];
      match Listed(files[..|files| - 1])
      case None => None
      case Some(ms) =>
        if !EndsWithSql(f.name) then Some(ms)
        else if !Acceptable(f.name) || Seen(ms, VersionOf(f.name).value) then None
        else Some(ms + [Migration(VersionOf(f.name).value, f.name, f.content)])
  }

  /** A name without a version, or with one that is zero or above two to the fifty-third less one. */
  predicate BadName(name: string) {
    VersionOf(name).None? || VersionOf(name).value == 0 || VersionOf(name).value > 9007199254740991
  }

  /** A directory is refused for a script with a bad name, or for two scripts of one version. */
  predicate Refused(files: seq<File>) {
    || (exists f :: f in files && EndsWithSql(f.name) && BadName(f.name))
    || (exists i, j :: 0 <= i < j < |files| && SameVersion(files[i].name, files[j].name))
  }

  predicate SameVersion(a: string, b: string) {
    EndsWithSql(a) && EndsWithSql(b) && Acceptable(a) && Acceptable(b) && VersionOf(a) == VersionOf(b)
  }

  predicate ListedFrom(m: Migration, f: File) {
    EndsWithSql(f.name) && VersionOf(f.name) == Some(m.version) && m.name == f.name && m.content == f.content
  }

  predicate Lists(ms: seq<Migration>, f: File) {
    exists m :: m in ms && ListedFrom(m, f)
  }

  predicate FromSome(m: Migration, files: seq<File>) {
    exists f :: f in files && ListedFrom(m, f)
  }

  /** The migrations of a directory are those of its scripts, and the rest of it is ignored. */
  predicate ListsScripts(ms: seq<Migration>, files: seq<File>) {
    && (forall f :: f in files && EndsWithSql(f.name) ==> Lists(ms, f))
    && (forall m :: m in ms ==> FromSome(m, files))
  }

  lemma BadNames(name: string)
    ensures BadName(name) <==> !Acceptable(name)
  {
  }

  lemma {:induction false} ListedIsExact(files: seq<File>)
    ensures Listed(files).None? <==> Refused(files)
    ensures Listed(files).Some? ==> ListsScripts(Listed(files).value, files)
  {
    if files != [] {
      var n := |files| - 1;
      ListedIsExact(files[..n]);
      RefusedGrows(files);
      if Listed(files[..n]).Some? {
        var ms, f := Listed(files[..n]).value, files[n];
        assert files[..n] + [f] == files;
        OneMoreFile(files[..n], f, ms);
        BadNames(f.name);
        if EndsWithSql(f.name) && Acceptable(f.name) { SeenExactly(files[..n], ms, f.name); }
      }
    }
  }

  lemma OneMoreFile(front: seq<File>, f: File, ms: seq<Migration>)
    requires Listed(front) == Some(ms) && ListsScripts(ms, front)
    ensures var r := Listed(front + [f]);
      && (r.None? <==> EndsWithSql(f.name) && (!Acceptable(f.name) || Seen(ms, VersionOf(f.name).value)))
      && (r.Some? ==> ListsScripts(r.value, front + [f]))
  {
    assert (front + [f])[..|front|] == front;
    if !EndsWithSql(f.name) {
      ListsOneMore(front, ms, f, []);
      assert ms + [] == ms;
    } else if Acceptable(f.name) && !Seen(ms, VersionOf(f.name).value) {
      ListsOneMore(front, ms, f, [Migration(VersionOf(f.name).value, f.name, f.content)]);
    }
  }

  lemma RefusedGrows(files: seq<File>)
    requires files != []
    ensures var n := |files| - 1;
      Refused(files) <==>
        || Refused(files[..n])
        || (EndsWithSql(files[n].name) && BadName(files[n].name))
        || (exists i :: 0 <= i < n && SameVersion(files[i].name, files[n].name))
  {
    var n := |files| - 1;
    assert files == files[..n] + [files[n]];
    forall i, j | 0 <= i < j < |files| && SameVersion(files[i].name, files[j].name) && j < n
      ensures Refused(files[..n])
    {
      assert files[..n][i] == files[i] && files[..n][j] == files[j];
    }
    if i, j :| 0 <= i < j < n && SameVersion(files[..n][i].name, files[..n][j].name) {
      assert SameVersion(files[i].name, files[j].name);
    }
  }

  lemma SeenExactly(files: seq<File>, ms: seq<Migration>, name: string)
    requires ListsScripts(ms, files) && EndsWithSql(name) && Acceptable(name)
    ensures Seen(ms, VersionOf(name).value) <==> exists i :: 0 <= i < |files| && SameVersion(files[i].name, name)
  {
    if Seen(ms, VersionOf(name).value) {
      var k :| 0 <= k < |ms| && ms[k].version == VersionOf(name).value;
      assert ms[k] in ms;
      var f :| f in files && ListedFrom(ms[k], f);
      assert SameVersion(f.name, name);
    }
    if i :| 0 <= i < |files| && SameVersion(files[i].name, name) {
      assert files[i] in files;
      var m :| m in ms && ListedFrom(m, files[i]);
    }
  }

  lemma ListsOneMore(files: seq<File>, ms: seq<Migration>, f: File, more: seq<Migration>)
    requires ListsScripts(ms, files)
    requires if EndsWithSql(f.name) then |more| == 1 && ListedFrom(more[0], f) else more == []
    ensures ListsScripts(ms + more, files + [f])
  {
    var all, every := ms + more, files + [f];
    assert forall m :: m in all <==> m in ms || m in more;
    assert forall g :: g in every <==> g in files || g == f;
    forall m | m in all ensures FromSome(m, every) {
      if m in ms { assert FromSome(m, files); } else { assert ListedFrom(m, f); }
    }
    forall g | g in every && EndsWithSql(g.name) ensures Lists(all, g) {
      if g in files { assert Lists(ms, g); } else { assert ListedFrom(more[0], g); }
    }
  }

  // ---------------------------------------------------------------- order

  predicate Ascending(ms: seq<Migration>) {
    forall i, j :: 0 <= i < j < |ms| ==> ms[i].version < ms[j].version
  }

  function InsertByVersion(m: Migration, ms: seq<Migration>): seq<Migration> {
    if ms == [] || m.version <= ms[0].version then [m] + ms else [ms[0]] + InsertByVersion(m, ms[1..])
  }

  function SortByVersion(ms: seq<Migration>): seq<Migration> {
    if ms == [] then [] else InsertByVersion(ms[0], SortByVersion(ms[1..]))
  }

  lemma {:induction false} InsertKeepsOrder(m: Migration, ms: seq<Migration>)
    requires Ascending(ms) && !Seen(ms, m.version)
    ensures Ascending(InsertByVersion(m, ms))
    ensures forall x :: x in InsertByVersion(m, ms) <==> x == m || x in ms
  {
    if ms != [] && m.version > ms[0].version {
      assert forall i :: 0 <= i < |ms[1..]| ==> ms[1..][i] == ms[i + 1];
      InsertKeepsOrder(m, ms[1..]);
      var rest := InsertByVersion(m, ms[1..]);
      forall i | 0 <= i < |rest| ensures ms[0].version < rest[i].version {
        assert rest[i] in rest;
      }
    } else if ms != [] {
      assert !Seen(ms, m.version) && m.version != ms[0].version;
    }
  }

  predicate DistinctVersions(ms: seq<Migration>) {
    forall i, j :: 0 <= i < j < |ms| ==> ms[i].version != ms[j].version
  }

  /** Sorting puts distinct versions in ascending order and keeps the migrations. */
  lemma {:induction false} SortSorts(ms: seq<Migration>)
    requires DistinctVersions(ms)
    ensures Ascending(SortByVersion(ms))
    ensures forall x :: x in SortByVersion(ms) <==> x in ms
  {
    if ms != [] {
      SortSorts(ms[1..]);
      var rest := SortByVersion(ms[1..]);
      forall i | 0 <= i < |rest| ensures rest[i].version != ms[0].version {
        assert rest[i] in rest;
        var j :| 0 <= j < |ms[1..]| && ms[1..][j] == rest[i];
        assert ms[j + 1] == rest[i];
      }
      InsertKeepsOrder(ms[0], rest);
      assert ms == [ms[0]] + ms[1..];
    }
  }

  lemma {:induction false} ListedIsDistinct(files: seq<File>)
    ensures Listed(files).Some? ==> DistinctVersions(Listed(files).value)
    ensures Listed(files).Some? ==>
      forall m :: m in Listed(files).value ==> 0 < m.version <= MAX_SAFE_INTEGER
  {
    if files != [] {
      ListedIsDistinct(files[..|files| - 1]);
    }
  }

  /** The migrations a call goes through, in ascending order; `None` when the directory is refused. */
  function Plan(files: seq<File>): Option<seq<Migration>> {
    match Listed(files)
    case None => None
    case Some(ms) => Some(SortByVersion(ms))
  }

  lemma PlanIsAscending(files: seq<File>)
    requires Plan(files).Some?
    ensures Ascending(Plan(files).value)
    ensures forall m :: m in Plan(files).value ==> 0 < m.version <= MAX_SAFE_INTEGER
    ensures forall m :: m in Plan(files).value <==> m in Listed(files).value
  {
    ListedIsDistinct(files);
    SortSorts(Listed(files).value);
  }

  // ---------------------------------------------------------------- one call

  predicate IsHead(schema: Schema, head: nat) {
    && (forall v :: v in schema ==> v <= head)
    && (if schema == map[] then head == 0 else head in schema)
  }

  /** The recorded checksum of a migration does not match its file. */
  predicate Mismatch(schema: Schema, m: Migration, hash: string -> string) {
    && m.version in schema && m.content.Some?
    && schema[m.version].Some? && schema[m.version].value != hash(m.content.value)
  }

  function Record(db: Db, m: Migration, hash: string -> string): Db
    requires m.content.Some?
  {
    Db(db.schema[m.version := Some(hash(m.content.value))], db.executed + [m.version])
  }

  /** Goes through the plan; the answer says whether the call completed. */
  function Apply(db: Db, head: nat, plan: seq<Migration>, commits: string -> bool, hash: string -> string): (Db, bool)
    decreases |plan|
  {
    if plan == [] then (db, true)
    else
      var m, rest := plan[0], plan[1..];
      if m.version in db.schema then
        if m.content.None? || Mismatch(db.schema, m, hash) then (db, false)
        else Apply(db, head, rest, commits, hash)
      else if m.version < head || m.content.None? || !commits(m.name) then (db, false)
      else Apply(Record(db, m, hash), m.version, rest, commits, hash)
  }

  /** What one call does to the database, given its applied head. */
  function Migrated(db: Db, head: nat, call: Call, hash: string -> string): (Db, bool) {
    match Plan(call.files)
    case None => (db, false)
    case Some(plan) => Apply(db, head, plan, call.commits, hash)
  }

  predicate Increasing(s: seq<nat>) {
    forall i, j :: 0 <= i < j < |s| ==> s[i] < s[j]
  }

  /** Executed versions are recorded and strictly increase, and none lies above the head. */
  predicate Sound(db: Db, head: nat) {
    && IsHead(db.schema, head)
    && Increasing(db.executed)
    && forall i :: 0 <= i < |db.executed| ==> db.executed[i] in db.schema
  }

  predicate Positive(plan: seq<Migration>) {
    forall i :: 0 <= i < |plan| ==> plan[i].version > 0
  }

  /**
   * A call records in ascending order and above everything recorded before; it neither removes
   * nor rewrites a row.
   */
  lemma {:induction false} ApplyGoesUp(db: Db, head: nat, plan: seq<Migration>, commits: string -> bool,
                                       hash: string -> string) returns (after: nat)
    requires Sound(db, head) && Positive(plan)
    ensures head <= after && Sound(Apply(db, head, plan, commits, hash).0, after)
    ensures var r := Apply(db, head, plan, commits, hash).0;
      && db.executed <= r.executed
      && (forall v :: v in db.schema ==> v in r.schema && r.schema[v] == db.schema[v])
      && (forall v :: v in r.schema ==> v in db.schema || v in r.executed)
    decreases |plan|
  {
    after := head;
    if plan != [] {
      var m, rest := plan[0], plan[1..];
      if m.version in db.schema {
        if m.content.Some? && !Mismatch(db.schema, m, hash) {
          after := ApplyGoesUp(db, head, rest, commits, hash);
        }
      } else if m.version >= head && m.content.Some? && commits(m.name) {
        after := ApplyGoesUp(Record(db, m, hash), m.version, rest, commits, hash);
        assert Record(db, m, hash).executed[|db.executed|] == m.version;
      }
    }
  }

  /** The file's version is recorded, with no checksum or with the checksum of its content. */
  predicate Recorded(schema: Schema, m: Migration, hash: string -> string) {
    && m.version in schema && m.content.Some?
    && (schema[m.version].Some? ==> schema[m.version].value == hash(m.content.value))
  }

  /** A completed call leaves every file of the plan recorded. */
  lemma {:induction false} CompletedIsRecorded(db: Db, head: nat, plan: seq<Migration>, commits: string -> bool,
                                               hash: string -> string)
    requires Sound(db, head) && Positive(plan)
    requires Apply(db, head, plan, commits, hash).1
    ensures forall i :: 0 <= i < |plan| ==> Recorded(Apply(db, head, plan, commits, hash).0.schema, plan[i], hash)
    decreases |plan|
  {
    if plan != [] {
      var m, rest := plan[0], plan[1..];
      var (next, top) := if m.version in db.schema then (db, head) else (Record(db, m, hash), m.version);
      CompletedIsRecorded(next, top, rest, commits, hash);
      var _ := ApplyGoesUp(next, top, rest, commits, hash);
      assert Recorded(next.schema, m, hash);
      assert forall i :: 0 < i < |plan| ==> plan[i] == rest[i - 1];
    }
  }

  /** When every file is recorded a call completes and changes nothing. */
  lemma {:induction false} RecordedRunsNothing(db: Db, head: nat, plan: seq<Migration>, commits: string -> bool,
                                               hash: string -> string)
    requires forall i :: 0 <= i < |plan| ==> Recorded(db.schema, plan[i], hash)
    ensures Apply(db, head, plan, commits, hash) == (db, true)
    decreases |plan|
  {
    if plan != [] {
      assert Recorded(db.schema, plan[0], hash);
      assert forall i :: 0 <= i < |plan[1..]| ==> plan[1..][i] == plan[i + 1];
      RecordedRunsNothing(db, head, plan[1..], commits, hash);
    }
  }

  /** A file that must stop the run: changed after it was applied, or below the applied head. */
  predicate Blocks(db: Db, head: nat, m: Migration, hash: string -> string) {
    Mismatch(db.schema, m, hash) || (m.version !in db.schema && m.version < head)
  }

  predicate Blocked(db: Db, head: nat, plan: seq<Migration>, hash: string -> string) {
    exists i :: 0 <= i < |plan| && Blocks(db, head, plan[i], hash)
  }

  /** One such file anywhere in the directory stops the call before anything is executed. */
  lemma {:induction false} BlockedExecutesNothing(db: Db, head: nat, plan: seq<Migration>, commits: string -> bool,
                                                  hash: string -> string)
    requires Sound(db, head) && Ascending(plan) && Blocked(db, head, plan, hash)
    ensures Apply(db, head, plan, commits, hash) == (db, false)
    decreases |plan|
  {
    var i :| 0 <= i < |plan| && Blocks(db, head, plan[i], hash);
    var m, rest := plan[0], plan[1..];
    if i > 0 {
      assert rest[i - 1] == plan[i] && m.version < plan[i].version;
      assert plan[i].version <= head;
      if m.version in db.schema && m.content.Some? && !Mismatch(db.schema, m, hash) {
        assert forall j :: 0 <= j < |rest| ==> rest[j] == plan[j + 1];
        BlockedExecutesNothing(db, head, rest, commits, hash);
      }
    }
  }

  /** The file can be read, and if it is pending it commits. */
  predicate Passes(db: Db, m: Migration, commits: string -> bool) {
    m.content.Some? && (m.version in db.schema || commits(m.name))
  }

  /** Nothing in the plan stands in the way. */
  predicate Clear(db: Db, plan: seq<Migration>, commits: string -> bool) {
    forall i :: 0 <= i < |plan| ==> Passes(db, plan[i], commits)
  }

  /** A call completes exactly when no file blocks it and nothing in the plan fails. */
  lemma {:induction false} CompletesExactlyWhenClear(db: Db, head: nat, plan: seq<Migration>, commits: string -> bool,
                                                     hash: string -> string)
    requires Sound(db, head) && Ascending(plan) && Positive(plan)
    ensures Apply(db, head, plan, commits, hash).1 <==> !Blocked(db, head, plan, hash) && Clear(db, plan, commits)
    decreases |plan|
  {
    if Blocked(db, head, plan, hash) {
      BlockedExecutesNothing(db, head, plan, commits, hash);
    } else if plan != [] {
      var m, rest := plan[0], plan[1..];
      assert !Blocks(db, head, m, hash);
      assert forall i :: 0 <= i < |rest| ==> rest[i] == plan[i + 1];
      if m.content.Some? && (m.version in db.schema || commits(m.name)) {
        if m.version in db.schema {
          CompletesExactlyWhenClear(db, head, rest, commits, hash);
        } else {
          CompletesExactlyWhenClear(Record(db, m, hash), m.version, rest, commits, hash);
          assert forall i :: 0 <= i < |rest| ==> rest[i].version > m.version;
          assert forall i :: 0 <= i < |rest| ==> rest[i].version !in db.schema;
          assert !Blocked(Record(db, m, hash), m.version, rest, hash);
        }
      }
    }
  }

  lemma UnblockedTail(db: Db, head: nat, plan: seq<Migration>, commits: string -> bool, hash: string -> string)
    requires Ascending(plan) && !Blocked(db, head, plan, hash)
    requires plan != [] && plan[0].version !in db.schema && plan[0].content.Some?
    ensures var next, rest := Record(db, plan[0], hash), plan[1..];
      && Ascending(rest) && !Blocked(next, plan[0].version, rest, hash)
      && forall i :: 0 <= i < |rest| ==> Passes(next, rest[i], commits) == Passes(db, rest[i], commits)
  {
    var rest := plan[1..];
    assert forall i :: 0 <= i < |rest| ==> rest[i] == plan[i + 1] && rest[i].version > plan[0].version;
    assert forall i :: 0 <= i < |plan| ==> !Blocks(db, head, plan[i], hash);
  }

  lemma StopsAtFirst(db: Db, head: nat, plan: seq<Migration>, commits: string -> bool, hash: string -> string)
    requires plan != [] && !Passes(db, plan[0], commits)
    ensures Apply(db, head, plan, commits, hash) == (db, false)
  {
  }

  lemma SkipsFirst(db: Db, head: nat, plan: seq<Migration>, commits: string -> bool, hash: string -> string)
    requires Ascending(plan) && Positive(plan) && !Blocked(db, head, plan, hash)
    requires plan != [] && plan[0].version in db.schema && Passes(db, plan[0], commits)
    ensures Apply(db, head, plan, commits, hash) == Apply(db, head, plan[1..], commits, hash)
    ensures Ascending(plan[1..]) && Positive(plan[1..]) && !Blocked(db, head, plan[1..], hash)
  {
    assert !Blocks(db, head, plan[0], hash);
    assert forall i :: 0 <= i < |plan[1..]| ==> plan[1..][i] == plan[i + 1];
    assert forall i :: 0 <= i < |plan| ==> !Blocks(db, head, plan[i], hash);
  }

  lemma ExecutesFirst(db: Db, head: nat, plan: seq<Migration>, commits: string -> bool, hash: string -> string)
    requires Sound(db, head) && Ascending(plan) && Positive(plan) && !Blocked(db, head, plan, hash)
    requires plan != [] && plan[0].version !in db.schema && Passes(db, plan[0], commits)
    ensures var m, next, r := plan[0], Record(db, plan[0], hash), Apply(db, head, plan, commits, hash);
      && r == Apply(next, m.version, plan[1..], commits, hash)
      && Sound(next, m.version)
      && m.version in r.0.schema && r.0.schema[m.version] == Some(hash(m.content.value))
  {
    var m, next := plan[0], Record(db, plan[0], hash);
    assert !Blocks(db, head, m, hash);
    assert next.schema[m.version] == Some(hash(m.content.value));
    var _ := ApplyGoesUp(next, m.version, plan[1..], commits, hash);
  }

  /**
   * A call that nothing blocks executes a pending file exactly when it and every file before it
   * passes, and records the checksum of what it executed; so a failing script and all after it
   * leave no trace.
   */
  lemma {:induction false} ExecutesUpToAFailure(db: Db, head: nat, plan: seq<Migration>, commits: string -> bool,
                                                hash: string -> string, k: nat)
    requires Sound(db, head) && Ascending(plan) && Positive(plan) && !Blocked(db, head, plan, hash)
    requires k < |plan| && plan[k].version !in db.schema
    ensures var r := Apply(db, head, plan, commits, hash).0;
      if forall i :: 0 <= i <= k ==> Passes(db, plan[i], commits)
      then plan[k].version in r.schema && r.schema[plan[k].version] == Some(hash(plan[k].content.value))
      else plan[k].version !in r.schema
    decreases |plan|
  {
    var m, rest := plan[0], plan[1..];
    assert forall i :: 0 <= i < |rest| ==> rest[i] == plan[i + 1];
    if !Passes(db, m, commits) {
      StopsAtFirst(db, head, plan, commits, hash);
    } else {
      if m.version in db.schema {
        SkipsFirst(db, head, plan, commits, hash);
        ExecutesUpToAFailure(db, head, rest, commits, hash, k - 1);
      } else {
        var next := Record(db, m, hash);
        UnblockedTail(db, head, plan, commits, hash);
        ExecutesFirst(db, head, plan, commits, hash);
        if k > 0 { ExecutesUpToAFailure(next, m.version, rest, commits, hash, k - 1); }
      }
    }
  }

  lemma {:induction false} ExecutesThePlanOnly(db: Db, head: nat, plan: seq<Migration>, commits: string -> bool,
                                               hash: string -> string, v: nat)
    requires v in Apply(db, head, plan, commits, hash).0.schema && v !in db.schema
    ensures exists k :: 0 <= k < |plan| && plan[k].version == v
    decreases |plan|
  {
    if plan != [] && plan[0].version != v {
      var m, rest := plan[0], plan[1..];
      if m.version in db.schema {
        ExecutesThePlanOnly(db, head, rest, commits, hash, v);
      } else if m.content.Some? && commits(m.name) && m.version >= head {
        ExecutesThePlanOnly(Record(db, m, hash), m.version, rest, commits, hash, v);
      }
    }
  }

  // ---------------------------------------------------------------- any number of calls

  /** The largest recorded version, zero when there is none. */
  ghost function Head(versions: set<nat>): (h: nat)
    ensures forall v :: v in versions ==> v <= h
    ensures if versions == {} then h == 0 else h in versions
  {
    if versions == {} then 0
    else
      var v :| v in versions;
      var h := Head(versions - {v});
      assert forall w :: w in versions ==> w == v || w in versions - {v};
      if v > h then v else h
  }

  ghost function HeadOf(db: Db): (h: nat)
    ensures IsHead(db.schema, h)
  {
    Head(db.schema.Keys)
  }

  /** What one call does, and whether it completes. */
  ghost function Once(db: Db, call: Call, hash: string -> string): (Db, bool) {
    Migrated(db, HeadOf(db), call, hash)
  }

  ghost function RunCalls(db: Db, calls: seq<Call>, hash: string -> string): Db {
    if calls == [] then db
    else Once(RunCalls(db, calls[..|calls| - 1], hash), calls[|calls| - 1], hash).0
  }

  ghost predicate Orderly(db: Db) {
    Sound(db, HeadOf(db))
  }

  lemma PlanFits(files: seq<File>)
    requires Plan(files).Some?
    ensures Ascending(Plan(files).value) && Positive(Plan(files).value)
  {
    PlanIsAscending(files);
    forall i | 0 <= i < |Plan(files).value| ensures Plan(files).value[i].version > 0 {
      assert Plan(files).value[i] in Plan(files).value;
    }
  }

  lemma OnceGoesUp(db: Db, call: Call, hash: string -> string)
    requires Orderly(db)
    ensures var r := Once(db, call, hash).0;
      && Orderly(r)
      && db.executed <= r.executed
      && (forall v :: v in db.schema ==> v in r.schema && r.schema[v] == db.schema[v])
      && (forall v :: v in r.schema ==> v in db.schema || v in r.executed)
  {
    if Plan(call.files).Some? {
      PlanFits(call.files);
      var after := ApplyGoesUp(db, HeadOf(db), Plan(call.files).value, call.commits, hash);
    }
  }

  /**
   * Over any sequence of calls, including ones that stop part-way, the executed versions
   * strictly increase, so none is executed twice; each is recorded, and no recorded row is
   * ever changed.
   */
  lemma {:induction false} ExecutedOnceAndUpward(db: Db, calls: seq<Call>, hash: string -> string)
    requires Orderly(db)
    ensures var r := RunCalls(db, calls, hash);
      && Orderly(r) && Increasing(r.executed) && db.executed <= r.executed
      && (forall i :: 0 <= i < |r.executed| ==> r.executed[i] in r.schema)
      && (forall v :: v in db.schema ==> v in r.schema && r.schema[v] == db.schema[v])
  {
    if calls != [] {
      ExecutedOnceAndUpward(db, calls[..|calls| - 1], hash);
      OnceGoesUp(RunCalls(db, calls[..|calls| - 1], hash), calls[|calls| - 1], hash);
    }
  }

  /** A completed call leaves every listed file recorded, and the same directory executes nothing again. */
  lemma CompletedCallIsFinal(db: Db, call: Call, again: string -> bool, hash: string -> string)
    requires Orderly(db) && Once(db, call, hash).1
    ensures var r := Once(db, call, hash).0;
      && Plan(call.files).Some?
      && (forall m :: m in Listed(call.files).value ==> Recorded(r.schema, m, hash))
      && Once(r, Call(call.files, again), hash) == (r, true)
  {
    var r := Once(db, call, hash).0;
    var plan := Plan(call.files).value;
    PlanIsAscending(call.files);
    PlanFits(call.files);
    CompletedIsRecorded(db, HeadOf(db), plan, call.commits, hash);
    RecordedRunsNothing(r, HeadOf(r), plan, again, hash);
    forall m | m in Listed(call.files).value ensures Recorded(r.schema, m, hash) {
      var i :| 0 <= i < |plan| && plan[i] == m;
    }
  }

  /**
   * A file whose content changed after it was applied, or a new file below the applied head,
   * stops the call before it executes anything.
   */
  lemma ChangedOrLateFileStopsTheCall(db: Db, call: Call, m: Migration, hash: string -> string)
    requires Orderly(db) && Listed(call.files).Some? && m in Listed(call.files).value
    requires Blocks(db, HeadOf(db), m, hash)
    ensures Once(db, call, hash) == (db, false)
  {
    var plan := Plan(call.files).value;
    PlanIsAscending(call.files);
    assert m in plan;
    var i :| 0 <= i < |plan| && plan[i] == m;
    BlockedExecutesNothing(db, HeadOf(db), plan, call.commits, hash);
  }

  /** A call completes exactly when the names are accepted, no file blocks it, and nothing fails. */
  lemma CallCompletesExactlyWhen(db: Db, call: Call, hash: string -> string)
    requires Orderly(db)
    ensures Once(db, call, hash).1
      <==> && Plan(call.files).Some?
           && !Blocked(db, HeadOf(db), Plan(call.files).value, hash)
           && Clear(db, Plan(call.files).value, call.commits)
  {
    if Plan(call.files).Some? {
      PlanFits(call.files);
      CompletesExactlyWhenClear(db, HeadOf(db), Plan(call.files).value, call.commits, hash);
    }
  }

  /**
   * What a call executes: nothing if the directory is refused or some file blocks it; else
   * exactly the pending files up to the first that cannot be read or does not commit.
   */
  lemma CallExecutesExactly(db: Db, call: Call, hash: string -> string, m: Migration)
    requires Orderly(db) && Listed(call.files).Some? && m in Listed(call.files).value && m.version !in db.schema
    requires var ms := Listed(call.files).value;
      forall other :: other in ms ==> !Blocks(db, HeadOf(db), other, hash)
    ensures var r := Once(db, call, hash).0;
      if forall other :: other in Listed(call.files).value && other.version <= m.version ==> Passes(db, other, call.commits)
      then m.version in r.schema && r.schema[m.version] == Some(hash(m.content.value))
      else m.version !in r.schema
  {
    var plan := Plan(call.files).value;
    PlanIsAscending(call.files);
    PlanFits(call.files);
    assert m in plan;
    var k :| 0 <= k < |plan| && plan[k] == m;
    forall i | 0 <= i < |plan| ensures !Blocks(db, HeadOf(db), plan[i], hash) {
      assert plan[i] in plan;
    }
    ExecutesUpToAFailure(db, HeadOf(db), plan, call.commits, hash, k);
    UpTo(db, plan, k, call.commits);
  }

  lemma UpTo(db: Db, plan: seq<Migration>, k: nat, commits: string -> bool)
    requires Ascending(plan) && k < |plan|
    ensures (forall i :: 0 <= i <= k ==> Passes(db, plan[i], commits))
      <==> (forall other :: other in plan && other.version <= plan[k].version ==> Passes(db, other, commits))
  {
    forall other | other in plan && other.version <= plan[k].version ensures exists i :: 0 <= i <= k && plan[i] == other {
      var i :| 0 <= i < |plan| && plan[i] == other;
    }
    forall i | 0 <= i <= k ensures plan[i] in plan && plan[i].version <= plan[k].version {}
  }

  /** A call that is refused or blocked executes nothing, and no call executes anything that is not listed. */
  lemma CallExecutesListedOnly(db: Db, call: Call, hash: string -> string, v: nat)
    requires v !in db.schema && v in Once(db, call, hash).0.schema
    ensures Listed(call.files).Some? && Seen(Listed(call.files).value, v)
  {
    var plan := Plan(call.files).value;
    PlanIsAscending(call.files);
    ExecutesThePlanOnly(db, HeadOf(db), plan, call.commits, hash, v);
    var k :| 0 <= k < |plan| && plan[k].version == v;
    assert plan[k] in plan;
  }

  // ---------------------------------------------------------------- the runner

  class Runner {
    var schema: Schema
    var executed: seq<nat>
    var foreignKeys: bool
    const hash: string -> string

    ghost function State(): Db
      reads this
    {
      Db(schema, executed)
    }

    ghost predicate Valid()
      reads this
    {
      Orderly(State()) && foreignKeys
    }

    /** Opens a database that earlier runners may have migrated. */
    constructor (recorded: Schema, hash: string -> string)
      ensures Valid() && schema == recorded && executed == [] && this.hash == hash
    {
      schema, executed, foreignKeys := recorded, [], true;
      this.hash := hash;
    }

    /** Reads the directory, and refuses bad names and repeated versions. */
    static method ListMigrations(files: seq<File>) returns (r: Option<seq<Migration>>)
      ensures r == Plan(files)
    {
      var ms: seq<Migration> := [];
      for i := 0 to |files|
        invariant Listed(files[..i]) == Some(ms)
      {
        assert files[..i + 1][..i] == files[..i];
        var f := files[i];
        if EndsWithSql(f.name) {
          var version := VersionOf(f.name);
          if version.None? || !(0 < version.value <= MAX_SAFE_INTEGER) || Seen(ms, version.value) {
            RefusedEarly(files, i + 1);
            return None;
          }
          ms := ms + [Migration(version.value, f.name, f.content)];
        }
      }
      assert files[..|files|] == files;
      return Some(SortByVersion(ms));
    }

    method MaxApplied() returns (head: nat)
      ensures head == HeadOf(State())
    {
      head := 0;
      var left := schema.Keys;
      while left != {}
        invariant left <= schema.Keys
        invariant forall v :: v in schema && v !in left ==> v <= head
        invariant head == 0 || head in schema
        decreases |left|
      {
        var v :| v in left;
        left := left - {v};
        if v > head {
          head := v;
        }
      }
      if schema != map[] {
        var v :| v in schema;
        assert v <= head;
      }
    }

    /**
     * Executes one pending migration in its own transaction: its script and its row are both
     * kept or both undone, and a script that turns foreign keys off has them back on.
     */
    method ExecuteOne(m: Migration, fkOff: bool, commits: bool) returns (ok: bool)
      requires m.content.Some? && foreignKeys
      modifies this
      ensures ok == commits && foreignKeys
      ensures State() == if commits then Record(old(State()), m, hash) else old(State())
    {
      var savedSchema, savedExecuted := schema, executed;
      if fkOff {
        foreignKeys := false;
      }
      executed := executed + [m.version];
      schema := schema[m.version := Some(hash(m.content.value))];
      ok := commits;
      if !ok {
        schema, executed := savedSchema, savedExecuted;
      }
      foreignKeys := true;
    }

    /** One call of the runner. `fkOff` tells which scripts ask for foreign keys to be off. */
    method Migrate(call: Call, fkOff: string -> bool) returns (ok: bool)
      requires Valid()
      modifies this
      ensures Valid() && (State(), ok) == Once(old(State()), call, hash)
    {
      OnceGoesUp(State(), call, hash);
      var listed := ListMigrations(call.files);
      if listed.None? {
        return false;
      }
      var plan := listed.value;
      var maxApplied := MaxApplied();
      var applied, recorded := schema.Keys, schema;
      PlanFits(call.files);
      ghost var goal := Once(State(), call, hash);
      assert plan[0..] == plan;
      for i := 0 to |plan|
        invariant foreignKeys && applied == schema.Keys
        invariant Apply(State(), maxApplied, plan[i..], call.commits, hash) == goal
        invariant forall v :: v in recorded ==> v in schema && schema[v] == recorded[v]
        invariant forall j :: i <= j < |plan| && plan[j].version in schema ==> plan[j].version in recorded
      {
        var m := plan[i];
        assert plan[i..][0] == m && plan[i..][1..] == plan[i + 1..];
        if m.version in applied {
          if m.content.None? {
            return false;
          }
          var checksum := recorded[m.version];
          if checksum.Some? && checksum.value != hash(m.content.value) {
            return false;
          }
        } else {
          if m.version < maxApplied || m.content.None? {
            return false;
          }
          var done := ExecuteOne(m, fkOff(m.name), call.commits(m.name));
          if !done {
            return false;
          }
          applied := applied + {m.version};
          maxApplied := m.version;
        }
      }
      return true;
    }
  }

  lemma {:induction false} RefusedEarly(files: seq<File>, i: nat)
    requires i <= |files| && Listed(files[..i]).None?
    ensures Listed(files).None?
  {
    if i == |files| {
      assert files[..i] == files;
    } else {
      assert files[..|files| - 1][..i] == files[..i];
      RefusedEarly(files[..|files| - 1], i);
    }
  }
}
