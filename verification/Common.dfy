/** Small datatypes shared by the model. */
module Common {

  datatype Option<+T> = None | Some(value: T)

  /** The error classes a service call can throw. */
  datatype Error = BadRequest | Conflict | Forbidden | NotFound

  datatype Result<+T> = Ok(value: T) | Err(error: Error)

  /**
   * An optional input of a JavaScript call: `Keep` is `undefined`, which leaves a column
   * alone; `Set(None)` writes NULL.
   */
  datatype Field<+T> = Keep | Set(value: Option<T>)

  function Pick<T>(field: Field<T>, prior: Option<T>): (r: Option<T>) {
    match field
    case Keep => prior
    case Set(v) => v
  }

  /** What `.` does not match in a regular expression (section 22.2 of ECMA-262). */
  predicate IsLineTerminator(c: char) {
    c == '\n' || c == '\r' || c == '\U{2028}' || c == '\U{2029}'
  }

  const MAX_SAFE_INTEGER: nat := 0x1F_FFFF_FFFF_FFFF

  // ---------------------------------------------------------------- text

  /** The class `\s`, which is also what `trim` removes (section 22.2 of ECMA-262). */
  predicate IsSpace(c: char) {
    || c == ' ' || ('\t' <= c <= '\r') || c == '\U{00A0}' || c == '\U{1680}'
    || ('\U{2000}' <= c <= '\U{200A}') || c == '\U{2028}' || c == '\U{2029}'
    || c == '\U{202F}' || c == '\U{205F}' || c == '\U{3000}' || c == '\U{FEFF}'
  }

  function TrimStart(s: string): string {
    if s != "" && IsSpace(s[0]) then TrimStart(s[1..]) else s
  }

  function TrimEnd(s: string): string {
    if s != "" && IsSpace(s[|s| - 1]) then TrimEnd(s[..|s| - 1]) else s
  }

  function Trim(s: string): string {
    TrimEnd(TrimStart(s))
  }

  predicate AllSpace(s: string) {
    forall i :: 0 <= i < |s| ==> IsSpace(s[i])
  }

  /** A text is its trimmed form between white space, and the trimmed form has none at its ends. */
  lemma TrimIsExact(s: string) returns (before: string, after: string)
    ensures s == before + Trim(s) + after && AllSpace(before) && AllSpace(after)
    ensures Trim(s) != "" ==> !IsSpace(Trim(s)[0]) && !IsSpace(Trim(s)[|Trim(s)| - 1])
  {
    before := TrimStartIsExact(s);
    after := TrimEndIsExact(TrimStart(s));
  }

  /** There is only one such form. */
  lemma TrimIsUnique(before: string, s: string, after: string)
    requires AllSpace(before) && AllSpace(after)
    requires s != "" ==> !IsSpace(s[0]) && !IsSpace(s[|s| - 1])
    ensures Trim(before + s + after) == s
  {
    if s == "" {
      assert before + s + after == before + after && AllSpace(before + after);
      TrimOfSpace(before + after);
    } else {
      TrimStartDrops(before, s + after);
      assert before + s + after == before + (s + after);
      TrimEndDrops(s, after);
    }
  }

  lemma {:induction false} TrimOfSpace(s: string)
    requires AllSpace(s)
    ensures TrimStart(s) == "" && Trim(s) == ""
  {
    if s != "" { TrimOfSpace(s[1..]); }
  }

  lemma {:induction false} TrimStartDrops(before: string, s: string)
    requires AllSpace(before) && s != "" && !IsSpace(s[0])
    ensures TrimStart(before + s) == s
  {
    if before == "" {
      assert before + s == s;
    } else {
      assert (before + s)[1..] == before[1..] + s;
      TrimStartDrops(before[1..], s);
    }
  }

  lemma {:induction false} TrimEndDrops(s: string, after: string)
    requires AllSpace(after) && s != "" && !IsSpace(s[|s| - 1])
    ensures TrimEnd(s + after) == s
  {
    if after == "" {
      assert s + after == s;
    } else {
      assert (s + after)[..|s + after| - 1] == s + after[..|after| - 1];
      TrimEndDrops(s, after[..|after| - 1]);
    }
  }

  lemma {:induction false} TrimStartIsExact(s: string) returns (before: string)
    ensures s == before + TrimStart(s) && AllSpace(before)
    ensures TrimStart(s) != "" ==> !IsSpace(TrimStart(s)[0])
  {
    if s != "" && IsSpace(s[0]) {
      before := TrimStartIsExact(s[1..]);
      before := [s[0]] + before;
    } else {
      before := "";
    }
  }

  lemma {:induction false} TrimEndIsExact(s: string) returns (after: string)
    ensures s == TrimEnd(s) + after && AllSpace(after)
    ensures TrimEnd(s) != "" ==> !IsSpace(TrimEnd(s)[|TrimEnd(s)| - 1])
  {
    if s != "" && IsSpace(s[|s| - 1]) {
      after := TrimEndIsExact(s[..|s| - 1]);
      after := after + [s[|s| - 1]];
    } else {
      after := "";
    }
  }

  predicate OccursAt(s: string, sub: string, i: int) {
    0 <= i <= |s| - |sub| && s[i..i + |sub|] == sub
  }

  predicate Includes(s: string, sub: string) {
    exists i :: 0 <= i <= |s| - |sub| && OccursAt(s, sub, i)
  }

  // ---------------------------------------------------------------- slices

  lemma SplitAt<T>(s: seq<T>, i: nat, j: nat)
    requires i <= j <= |s|
    ensures s[i..] == s[i..j] + s[j..]
  {
  }

  lemma SplitBetween<T>(s: seq<T>, i: nat, j: nat, k: nat)
    requires i <= j <= k <= |s|
    ensures s[i..k] == s[i..j] + s[j..k]
  {
  }
}
