/**
 * The artifact check: the compiler from globs to regular expressions, and the rules that are
 * evaluated with it over a list of files. A `char` is a Unicode scalar value.
 */
module ArtifactCheck {
  import opened Common

  // ---------------------------------------------------------------- what a glob means

  /** The characters the compiler escapes. */
  predicate IsSyntax(c: char) {
    || c == '\\' || c == '^' || c == '$' || c == '.' || c == '|' || c == '+'
    || c == '(' || c == ')' || c == '[' || c == ']' || c == '{' || c == '}'
  }

  /** The glob after a double star, which swallows one slash. */
  function AfterDoubleStar(glob: string): (rest: string)
    requires |glob| >= 2
    ensures |rest| < |glob|
  {
    if |glob| > 2 && glob[2] == '/' then glob[3..] else glob[2..]
  }

  predicate DoubleStar(glob: string) {
    |glob| >= 2 && glob[0] == '*' && glob[1] == '*'
  }

  /** The direct matcher: a path matches a glob. */
  predicate GlobMatch(glob: string, path: string)
    decreases |glob| + |path|
  {
    if glob == "" then path == ""
    else if DoubleStar(glob) then
      || GlobMatch(AfterDoubleStar(glob), path)
      || (path != "" && !IsLineTerminator(path[0]) && GlobMatch(glob, path[1..]))
    else if glob[0] == '*' then
      GlobMatch(glob[1..], path) || (path != "" && path[0] != '/' && GlobMatch(glob, path[1..]))
    else path != "" && Single(glob[0], path[0]) && GlobMatch(glob[1..], path[1..])
  }

  /** A glob character that stands for one path character. */
  predicate Single(c: char, x: char) {
    if c == '?' then x != '/' else x == c
  }

  /** The first `k` characters hold no line terminator. */
  predicate OnOneLine(path: string, k: nat) {
    k <= |path| && forall j :: 0 <= j < k ==> !IsLineTerminator(path[j])
  }

  predicate InOneSegment(path: string, k: nat) {
    k <= |path| && forall j :: 0 <= j < k ==> path[j] != '/'
  }

  /** `**` stands for any stretch of the path, slashes included, without a line terminator. */
  lemma {:induction false} DoubleStarSpansSegments(glob: string, path: string)
    requires DoubleStar(glob)
    ensures GlobMatch(glob, path)
      <==> exists k: nat :: OnOneLine(path, k) && GlobMatch(AfterDoubleStar(glob), path[k..])
    decreases |path|
  {
    var rest := AfterDoubleStar(glob);
    assert path[0..] == path;
    if GlobMatch(glob, path) {
      if GlobMatch(rest, path) {
        assert OnOneLine(path, 0);
      } else {
        DoubleStarSpansSegments(glob, path[1..]);
        var k: nat :| OnOneLine(path[1..], k) && GlobMatch(rest, path[1..][k..]);
        assert path[1..][k..] == path[k + 1..];
        assert forall j :: 0 < j < |path| ==> path[j] == path[1..][j - 1];
        assert OnOneLine(path, k + 1);
      }
    }
    if k: nat :| OnOneLine(path, k) && GlobMatch(rest, path[k..]) {
      if k > 0 {
        assert path[1..][k - 1..] == path[k..];
        assert OnOneLine(path[1..], k - 1);
        DoubleStarSpansSegments(glob, path[1..]);
      }
    }
  }

  /** A single `*` stands for any stretch of one path segment. */
  lemma {:induction false} StarStaysInSegment(glob: string, path: string)
    requires glob != "" && glob[0] == '*' && !DoubleStar(glob)
    ensures GlobMatch(glob, path)
      <==> exists k: nat :: InOneSegment(path, k) && GlobMatch(glob[1..], path[k..])
    decreases |path|
  {
    assert path[0..] == path;
    if GlobMatch(glob, path) {
      if GlobMatch(glob[1..], path) {
        assert InOneSegment(path, 0);
      } else {
        StarStaysInSegment(glob, path[1..]);
        var k: nat :| InOneSegment(path[1..], k) && GlobMatch(glob[1..], path[1..][k..]);
        assert path[1..][k..] == path[k + 1..];
        assert forall j :: 0 < j < |path| ==> path[j] == path[1..][j - 1];
        assert InOneSegment(path, k + 1);
      }
    }
    if k: nat :| InOneSegment(path, k) && GlobMatch(glob[1..], path[k..]) {
      if k > 0 {
        assert path[1..][k - 1..] == path[k..];
        assert InOneSegment(path[1..], k - 1);
        StarStaysInSegment(glob, path[1..]);
      }
    }
  }

  /** A double star takes the slash behind it with it, so it may also stand for nothing at all. */
  lemma DoubleStarTakesItsSlash(rest: string, path: string)
    ensures GlobMatch("**/" + rest, path) <==> exists k: nat :: OnOneLine(path, k) && GlobMatch(rest, path[k..])
    ensures (rest == "" || rest[0] != '/') ==>
      (GlobMatch("**" + rest, path) <==> exists k: nat :: OnOneLine(path, k) && GlobMatch(rest, path[k..]))
  {
    assert ("**/" + rest)[3..] == rest && ("**" + rest)[2..] == rest;
    DoubleStarSpansSegments("**/" + rest, path);
    if rest == "" || rest[0] != '/' {
      assert rest != "" ==> ("**" + rest)[2] == rest[0];
      DoubleStarSpansSegments("**" + rest, path);
    }
  }

  /** A question mark is any one character but a slash; a character that is no wildcard is itself. */
  lemma OneCharacterIsOne(c: char, rest: string, path: string)
    ensures GlobMatch(['?'] + rest, path) <==> path != "" && path[0] != '/' && GlobMatch(rest, path[1..])
    ensures c != '*' && c != '?' ==>
      (GlobMatch([c] + rest, path) <==> path != "" && path[0] == c && GlobMatch(rest, path[1..]))
  {
    assert (['?'] + rest)[1..] == rest && ([c] + rest)[1..] == rest;
  }

  /** A glob without `*` and `?` matches itself only. */
  lemma {:induction false} LiteralGlobMatchesItself(glob: string, path: string)
    requires forall j :: 0 <= j < |glob| ==> glob[j] != '*' && glob[j] != '?'
    ensures GlobMatch(glob, path) <==> path == glob
  {
    if glob != "" && path != "" {
      LiteralGlobMatchesItself(glob[1..], path[1..]);
      assert glob == [glob[0]] + glob[1..] && path == [path[0]] + path[1..];
    }
  }

  // ---------------------------------------------------------------- what a pattern means

  /** The pattern characters of section 22.2 of ECMA-262 that the compiler uses. */
  datatype Atom = Dot | NotSlash | Literal(c: char)

  datatype Term = One(atom: Atom) | Many(atom: Atom)

  predicate AtomMatches(a: Atom, x: char) {
    match a
    case Dot => !IsLineTerminator(x)
    case NotSlash => x != '/'
    case Literal(c) => x == c
  }

  /** A sequence of terms matches a whole text: some way of repeating the starred atoms fits. */
  predicate TermsMatch(terms: seq<Term>, text: string)
    decreases |terms| + |text|
  {
    if terms == [] then text == ""
    else
      match terms[0]
      case One(a) => text != "" && AtomMatches(a, text[0]) && TermsMatch(terms[1..], text[1..])
      case Many(a) =>
        TermsMatch(terms[1..], text) || (text != "" && AtomMatches(a, text[0]) && TermsMatch(terms, text[1..]))
  }

  /** SyntaxCharacter of section 22.2 of ECMA-262: what stands for itself only behind a backslash. */
  predicate SyntaxCharacter(c: char) {
    c in {'^', '$', '\\', '.', '*', '+', '?', '(', ')', '[', ']', '{', '}', '|'}
  }

  /** The atom at the start of a pattern and its length; `None` for a construct outside the subset. */
  function ReadAtom(p: string): (r: Option<(Atom, nat)>)
    ensures r.Some? ==> 0 < r.value.1 <= |p|
  {
    if p == "" then None
    else if p[0] == '.' then Some((Dot, 1))
    else if p[0] == '\\' then if |p| >= 2 && SyntaxCharacter(p[1]) then Some((Literal(p[1]), 2)) else None
    else if p[0] == '[' then if "[^/]" <= p then Some((NotSlash, 4)) else None
    else if SyntaxCharacter(p[0]) then None
    else Some((Literal(p[0]), 1))
  }

  predicate Quantifies(p: string) {
    p != "" && (p[0] == '+' || p[0] == '?' || p[0] == '{')
  }

  /** The terms of a pattern up to the closing anchor. */
  function ReadTerms(p: string): Option<seq<Term>>
    decreases |p|, 0
  {
    if p == "$" then Some([])
    else
      match ReadAtom(p)
      case None => None
      case Some((atom, n)) => ReadOn(atom, p[n..])
  }

  /** The terms of a pattern whose first atom has been read: a star may repeat it. */
  function ReadOn(atom: Atom, rest: string): Option<seq<Term>>
    decreases |rest|, 1
  {
    var starred := rest != "" && rest[0] == '*';
    var tail := if starred then rest[1..] else rest;
    if Quantifies(tail) then None
    else
      match ReadTerms(tail)
      case None => None
      case Some(terms) => Some([if starred then Many(atom) else One(atom)] + terms)
  }

  /** Testing a text against an anchored pattern. */
  predicate Test(pattern: string, text: string) {
    && "^" <= pattern
    && ReadTerms(pattern[1..]).Some?
    && TermsMatch(ReadTerms(pattern[1..]).value, text)
  }

  /**
   * What the reader refuses: a syntax character that stands alone, a backslash before any other
   * character, a class that is not the one of path characters, and a quantifier other than the star.
   */
  lemma OutsideTheSubset(c: char, rest: string, atom: Atom)
    ensures c in {'^', '*', '+', '?', '(', ')', ']', '{', '}', '|'} ==> ReadAtom([c] + rest) == None
    ensures c !in {'^', '$', '\\', '.', '*', '+', '?', '(', ')', '[', ']', '{', '}', '|'} ==>
      ReadAtom([c] + rest) == Some((Literal(c), 1)) && ReadAtom(['\\', c] + rest) == None
    ensures c in {'^', '$', '\\', '.', '*', '+', '?', '(', ')', '[', ']', '{', '}', '|'} ==>
      ReadAtom(['\\', c] + rest) == Some((Literal(c), 2))
    ensures c in {'+', '?', '{'} ==> ReadOn(atom, [c] + rest) == None && ReadOn(atom, ['*', c] + rest) == None
  {
    assert (['*', c] + rest)[1..] == [c] + rest;
  }

  // ---------------------------------------------------------------- the compiler

  /** What the compiler has emitted once it has read the glob. */
  function Emit(glob: string): string
    decreases |glob|
  {
    if glob == "" then ""
    else if DoubleStar(glob) then ".*" + Emit(AfterDoubleStar(glob))
    else if glob[0] == '*' then "[^/]*" + Emit(glob[1..])
    else if glob[0] == '?' then "[^/]" + Emit(glob[1..])
    else if IsSyntax(glob[0]) then ['\\', glob[0]] + Emit(glob[1..])
    else [glob[0]] + Emit(glob[1..])
  }

  /** What one step of the compiler emits. */
  function Emitted(glob: string): string
    requires glob != ""
  {
    if DoubleStar(glob) then ".*"
    else if glob[0] == '*' then "[^/]*"
    else if glob[0] == '?' then "[^/]"
    else if IsSyntax(glob[0]) then ['\\', glob[0]]
    else [glob[0]]
  }

  lemma EmitStep(re: string, glob: string)
    requires glob != ""
    ensures (re + Emitted(glob)) + Emit(RestOf(glob)) == re + Emit(glob)
  {}

  method GlobToRegExp(glob: string) returns (pattern: string)
    ensures pattern == "^" + Emit(glob) + "$"
    ensures forall path :: Test(pattern, path) <==> GlobMatch(glob, path)
  {
    var re := "";
    var i: nat := 0;
    assert glob[0..] == glob && re + Emit(glob) == Emit(glob);
    while i < |glob|
      invariant i <= |glob|
      invariant re + Emit(glob[i..]) == Emit(glob)
    {
      ghost var left := glob[i..];
      EmitStep(re, left);
      var c := glob[i];
      if c == '*' {
        if i + 1 < |glob| && glob[i + 1] == '*' {
          re := re + ".*";
          i := i + 1;
          if i + 1 < |glob| && glob[i + 1] == '/' {
            i := i + 1;
          }
        } else {
          re := re + "[^/]*";
        }
      } else if c == '?' {
        re := re + "[^/]";
      } else if IsSyntax(c) {
        re := re + ['\\', c];
      } else {
        re := re + [c];
      }
      i := i + 1;
      assert glob[i..] == RestOf(left);
    }
    assert glob[|glob|..] == "" && re + "" == re;
    pattern := "^" + re + "$";
    MeaningForAll(glob);
  }

  lemma MeaningForAll(glob: string)
    ensures forall path :: Test("^" + Emit(glob) + "$", path) <==> GlobMatch(glob, path)
  {
    forall path ensures Test("^" + Emit(glob) + "$", path) <==> GlobMatch(glob, path) {
      CompilerPreservesMeaning(glob, path);
    }
  }

  function TermOf(glob: string): Term
    requires glob != ""
  {
    if DoubleStar(glob) then Many(Dot)
    else if glob[0] == '*' then Many(NotSlash)
    else if glob[0] == '?' then One(NotSlash)
    else One(Literal(glob[0]))
  }

  function RestOf(glob: string): (rest: string)
    requires glob != ""
    ensures |rest| < |glob|
  {
    if DoubleStar(glob) then AfterDoubleStar(glob) else glob[1..]
  }

  function TermsOf(glob: string): seq<Term>
    decreases |glob|
  {
    if glob == "" then [] else [TermOf(glob)] + TermsOf(RestOf(glob))
  }

  /** No emitted text begins with a quantifier, so no emitted atom is repeated by accident. */
  lemma EmitStartsAnAtom(glob: string)
    ensures var p := Emit(glob) + "$"; p != "" && p[0] != '*' && !Quantifies(p)
    ensures glob != "" ==> Emit(glob) + "$" != "$"
  {}

  lemma ReadStarred(atom: Atom, tail: string)
    requires !Quantifies(tail) && ReadTerms(tail).Some?
    ensures ReadOn(atom, "*" + tail) == Some([Many(atom)] + ReadTerms(tail).value)
  {
    assert ("*" + tail)[1..] == tail;
  }

  /** Reading the emitted text gives back one term for each step of the glob. */
  lemma {:induction false} EmittedTextReadsBack(glob: string)
    ensures ReadTerms(Emit(glob) + "$") == Some(TermsOf(glob))
    decreases |glob|
  {
    if glob != "" {
      var tail := Emit(RestOf(glob)) + "$";
      EmittedTextReadsBack(RestOf(glob));
      EmitStartsAnAtom(RestOf(glob));
      EmittedStep(glob, tail);
    }
  }

  lemma EmittedStep(glob: string, tail: string)
    requires glob != "" && tail == Emit(RestOf(glob)) + "$" && ReadTerms(tail).Some?
    requires tail[0] != '*' && !Quantifies(tail)
    ensures ReadTerms(Emit(glob) + "$") == Some([TermOf(glob)] + ReadTerms(tail).value)
  {
    if glob[0] == '*' {
      EmittedStar(glob, tail);
    } else if glob[0] == '?' {
      EmittedQuestion(glob, tail);
    } else {
      EmittedLiteral(glob, tail);
    }
  }

  lemma EmittedQuestion(glob: string, tail: string)
    requires glob != "" && glob[0] == '?' && tail == Emit(RestOf(glob)) + "$" && ReadTerms(tail).Some?
    requires tail[0] != '*' && !Quantifies(tail)
    ensures ReadTerms(Emit(glob) + "$") == Some([TermOf(glob)] + ReadTerms(tail).value)
  {
    var p := "[^/]" + tail;
    assert Emit(glob) + "$" == p;
    assert p[4..] == tail;
  }

  lemma EmittedLiteral(glob: string, tail: string)
    requires glob != "" && glob[0] != '*' && glob[0] != '?'
    requires tail == Emit(RestOf(glob)) + "$" && ReadTerms(tail).Some? && tail[0] != '*' && !Quantifies(tail)
    ensures ReadTerms(Emit(glob) + "$") == Some([TermOf(glob)] + ReadTerms(tail).value)
  {
    var p := Emitted(glob) + tail;
    assert Emit(glob) + "$" == p;
    assert p[|Emitted(glob)|..] == tail;
  }

  lemma EmittedStar(glob: string, tail: string)
    requires glob != "" && glob[0] == '*' && tail == Emit(RestOf(glob)) + "$" && ReadTerms(tail).Some?
    requires !Quantifies(tail)
    ensures ReadTerms(Emit(glob) + "$") == Some([TermOf(glob)] + ReadTerms(tail).value)
  {
    if DoubleStar(glob) {
      assert Emit(glob) + "$" == ".*" + tail;
      ReadDots(tail);
    } else {
      assert Emit(glob) + "$" == "[^/]*" + tail;
      ReadSegment(tail);
    }
  }

  lemma ReadDots(tail: string)
    requires !Quantifies(tail) && ReadTerms(tail).Some?
    ensures ReadTerms(".*" + tail) == Some([Many(Dot)] + ReadTerms(tail).value)
  {
    ReadStarred(Dot, tail);
    assert (".*" + tail)[1..] == "*" + tail;
  }

  lemma ReadSegment(tail: string)
    requires !Quantifies(tail) && ReadTerms(tail).Some?
    ensures ReadTerms("[^/]*" + tail) == Some([Many(NotSlash)] + ReadTerms(tail).value)
  {
    ReadStarred(NotSlash, tail);
    assert ("[^/]*" + tail)[4..] == "*" + tail;
  }

  lemma {:induction false} TermsMatchLikeGlob(glob: string, path: string)
    ensures TermsMatch(TermsOf(glob), path) <==> GlobMatch(glob, path)
    decreases |glob| + |path|
  {
    if glob != "" {
      var terms := TermsOf(glob);
      assert terms[0] == TermOf(glob) && terms[1..] == TermsOf(RestOf(glob));
      if TermOf(glob).Many? {
        TermsMatchLikeGlob(RestOf(glob), path);
        if path != "" { TermsMatchLikeGlob(glob, path[1..]); }
      } else if path != "" {
        TermsMatchLikeGlob(RestOf(glob), path[1..]);
      }
    }
  }

  /** For every glob and path, the emitted pattern matches exactly what the glob means. */
  lemma CompilerPreservesMeaning(glob: string, path: string)
    ensures Test("^" + Emit(glob) + "$", path) <==> GlobMatch(glob, path)
  {
    EmittedTextReadsBack(glob);
    TermsMatchLikeGlob(glob, path);
    assert ("^" + Emit(glob) + "$")[1..] == Emit(glob) + "$";
  }

  // ---------------------------------------------------------------- the rules

  datatype FileRule = FileRule(glob: string, mustExist: bool, minBytes: int)

  datatype ReportRule = ReportRule(minChars: Option<int>, mustContain: seq<string>, json: bool)

  /** A file the rule is content with. */
  predicate Satisfies(rule: FileRule, file: string, size: string -> nat) {
    GlobMatch(rule.glob, file) && (rule.minBytes > 0 ==> size(file) >= rule.minBytes)
  }

  /** A rule holds when some file satisfies it, or when nothing matches and nothing has to exist. */
  predicate FileRuleHolds(rule: FileRule, files: seq<string>, size: string -> nat) {
    || (exists i :: 0 <= i < |files| && Satisfies(rule, files[i], size))
    || (!rule.mustExist && forall i :: 0 <= i < |files| ==> !GlobMatch(rule.glob, files[i]))
  }

  /**
   * When a file rule fails: nothing matches although something has to exist, or something matches
   * and none of it is big enough, where a size is asked for.
   */
  lemma FileRuleFails(rule: FileRule, files: seq<string>, size: string -> nat)
    ensures !FileRuleHolds(rule, files, size) <==>
      || (rule.mustExist && forall f :: f in files ==> !GlobMatch(rule.glob, f))
      || (rule.minBytes > 0 && (exists f :: f in files && GlobMatch(rule.glob, f))
          && forall f :: f in files && GlobMatch(rule.glob, f) ==> size(f) < rule.minBytes)
  {
    if f :| f in files && GlobMatch(rule.glob, f) {
      var i :| 0 <= i < |files| && files[i] == f;
      assert GlobMatch(rule.glob, files[i]);
    }
    if f :| f in files && GlobMatch(rule.glob, f) && size(f) >= rule.minBytes {
      var i :| 0 <= i < |files| && files[i] == f;
      assert Satisfies(rule, files[i], size);
    }
    if i :| 0 <= i < |files| && Satisfies(rule, files[i], size) {
      assert files[i] in files;
    }
  }

  /** The positions of the files that match, among the first `n`. */
  function Matching(glob: string, files: seq<string>, n: nat): set<int>
    requires n <= |files|
  {
    set i | 0 <= i < n && GlobMatch(glob, files[i])
  }

  lemma OneMoreFile(glob: string, files: seq<string>, n: nat)
    requires n < |files|
    ensures |Matching(glob, files, n + 1)| == |Matching(glob, files, n)| + if GlobMatch(glob, files[n]) then 1 else 0
  {
    if GlobMatch(glob, files[n]) {
      assert Matching(glob, files, n + 1) == Matching(glob, files, n) + {n};
    } else {
      assert Matching(glob, files, n + 1) == Matching(glob, files, n);
    }
  }

  /** `size` answers zero for a file that cannot be measured. */
  method EvalFileRule(rule: FileRule, files: seq<string>, size: string -> nat) returns (ok: bool, matchCount: nat)
    ensures ok <==> FileRuleHolds(rule, files, size)
    ensures matchCount == |Matching(rule.glob, files, |files|)|
  {
    var re := GlobToRegExp(rule.glob);
    matchCount := 0;
    var bigEnough: nat := 0;
    for i := 0 to |files|
      invariant matchCount == |Matching(rule.glob, files, i)|
      invariant matchCount == 0 <==> forall j :: 0 <= j < i ==> !GlobMatch(rule.glob, files[j])
      invariant bigEnough == 0 <==>
        forall j :: 0 <= j < i ==> !(GlobMatch(rule.glob, files[j]) && size(files[j]) >= rule.minBytes)
    {
      OneMoreFile(rule.glob, files, i);
      if Test(re, files[i]) {
        matchCount := matchCount + 1;
        if size(files[i]) >= rule.minBytes {
          bigEnough := bigEnough + 1;
        }
      }
    }
    ok := true;
    if rule.mustExist && matchCount == 0 {
      ok := false;
    }
    if rule.minBytes > 0 {
      if matchCount > 0 && bigEnough == 0 {
        ok := false;
      }
      if rule.mustExist && bigEnough == 0 {
        ok := false;
      }
    }
    if !(forall j :: 0 <= j < |files| ==> !GlobMatch(rule.glob, files[j])) {
      var j :| 0 <= j < |files| && GlobMatch(rule.glob, files[j]);
      assert rule.minBytes <= 0 ==> Satisfies(rule, files[j], size);
    }
    assert forall j :: 0 <= j < |files| && Satisfies(rule, files[j], size) ==> GlobMatch(rule.glob, files[j]);
    assert rule.minBytes > 0 && bigEnough > 0 ==> exists j :: 0 <= j < |files| && Satisfies(rule, files[j], size);
  }

  /** A report holds when it is there, long enough, with everything it must contain. */
  predicate ReportHolds(rule: ReportRule, text: Option<string>, isJson: string -> bool) {
    && text.Some?
    && (rule.minChars.Some? ==> |text.value| >= rule.minChars.value)
    && (forall i :: 0 <= i < |rule.mustContain| ==> Includes(text.value, rule.mustContain[i]))
    && (rule.json ==> isJson(text.value))
  }

  /** When a report fails: it is not there, too short, lacks something, or is not the JSON it should be. */
  lemma ReportFails(rule: ReportRule, text: Option<string>, isJson: string -> bool)
    ensures !ReportHolds(rule, text, isJson) <==>
      || text == None
      || (rule.minChars.Some? && |text.value| < rule.minChars.value)
      || (exists needle :: needle in rule.mustContain && forall i :: 0 <= i <= |text.value| ==> !OccursAt(text.value, needle, i))
      || (rule.json && !isJson(text.value))
  {
    if text.Some? {
      forall needle | needle in rule.mustContain
        ensures Includes(text.value, needle) <==> exists i :: 0 <= i <= |text.value| && OccursAt(text.value, needle, i) {}
    }
  }

  method EvalReportRule(rule: ReportRule, text: Option<string>, isJson: string -> bool) returns (ok: bool)
    ensures ok <==> ReportHolds(rule, text, isJson)
  {
    if text.None? {
      return false;
    }
    ok := true;
    if rule.minChars.Some? && |text.value| < rule.minChars.value {
      ok := false;
    }
    ghost var longEnough := ok;
    for i := 0 to |rule.mustContain|
      invariant ok <==>
        (longEnough && forall j :: 0 <= j < i ==> Includes(text.value, rule.mustContain[j]))
    {
      if !Includes(text.value, rule.mustContain[i]) {
        ok := false;
      }
    }
    if rule.json && !isJson(text.value) {
      ok := false;
    }
  }

  /**
   * A check passes when there is a workspace, at least one rule, and every rule holds.
   * `walked` is the list of files found under the workspace.
   */
  method EvaluateArtifactCheck(hasWorkspace: bool, rules: seq<FileRule>, report: Option<ReportRule>, walked: seq<string>,
                               size: string -> nat, reportText: Option<string>, isJson: string -> bool)
    returns (passed: bool)
    ensures passed <==>
      && hasWorkspace
      && (rules != [] || report.Some?)
      && (forall i :: 0 <= i < |rules| ==> FileRuleHolds(rules[i], walked, size))
      && (report.Some? ==> ReportHolds(report.value, reportText, isJson))
  {
    if !hasWorkspace {
      return false;
    }
    var results: seq<bool> := [];
    for i := 0 to |rules|
      invariant |results| == i && forall j :: 0 <= j < i ==> results[j] == FileRuleHolds(rules[j], walked, size)
    {
      var ok, _ := EvalFileRule(rules[i], walked, size);
      results := results + [ok];
    }
    ghost var files := results;
    if report.Some? {
      var ok := EvalReportRule(report.value, reportText, isJson);
      results := results + [ok];
      assert results[|files|] == ok;
    }
    assert forall j :: 0 <= j < |files| ==> results[j] == files[j];
    passed := |results| > 0 && forall j :: 0 <= j < |results| ==> results[j];
  }
}
