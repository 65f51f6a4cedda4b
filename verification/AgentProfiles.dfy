/**
 * The permission mode of an agent profile: reading it from the argument template, resolving it
 * at run time, and the profile update that moves it between the template and its own column.
 */
module AgentProfiles {
  import opened Common
  import opened ArgsTemplate

  const PERMISSION_MODES: set<string> :=
    {"acceptEdits", "auto", "bypassPermissions", "default", "dontAsk", "manual", "plan"}

  const DEFAULT_MODE := "bypassPermissions"

  // ---------------------------------------------------------------- reading one option

  /** The values given for an option, in order; an error where one lacks its value. */
  function OptionValues(tokens: seq<string>, flag: string): Result<seq<string>> {
    if tokens == [] then Ok([])
    else if tokens[0] == flag then
      if |tokens| < 2 || tokens[1] == "" || StartsWith(tokens[1], "-") then Err(BadRequest)
      else Prepend([tokens[1]], OptionValues(tokens[2..], flag))
    else if StartsWith(tokens[0], flag + "=") then
      var value := tokens[0][|flag| + 1..];
      if value == "" then Err(BadRequest) else Prepend([value], OptionValues(tokens[1..], flag))
    else OptionValues(tokens[1..], flag)
  }

  function Prepend(front: seq<string>, rest: Result<seq<string>>): Result<seq<string>> {
    match rest
    case Ok(values) => Ok(front + values)
    case Err(e) => Err(e)
  }

  function SingleOption(tokens: seq<string>, flag: string): Result<Option<string>> {
    match OptionValues(tokens, flag)
    case Err(e) => Err(e)
    case Ok(values) =>
      if |values| > 1 then Err(BadRequest) else if |values| == 1 then Ok(Some(values[0])) else Ok(None)
  }

  method ReadSingleClaudeTemplateOption(tokens: seq<string>, flag: string) returns (r: Result<Option<string>>)
    ensures r == SingleOption(tokens, flag)
  {
    var values: seq<string> := [];
    var i: nat := 0;
    assert tokens[0..] == tokens;
    PrependNothing(OptionValues(tokens, flag));
    while i < |tokens|
      invariant i <= |tokens|
      invariant OptionValues(tokens, flag) == Prepend(values, OptionValues(tokens[i..], flag))
    {
      var token := tokens[i];
      assert tokens[i..][0] == token && tokens[i..][1..] == tokens[i + 1..];
      if token == flag {
        if i + 1 >= |tokens| || tokens[i + 1] == "" || StartsWith(tokens[i + 1], "-") {
          return Err(BadRequest);
        }
        assert tokens[i..][2..] == tokens[i + 2..];
        PrependTwice(values, [tokens[i + 1]], OptionValues(tokens[i + 2..], flag));
        values := values + [tokens[i + 1]];
        i := i + 1;
      } else if StartsWith(token, flag + "=") {
        var value := token[|flag| + 1..];
        if value == "" {
          return Err(BadRequest);
        }
        PrependTwice(values, [value], OptionValues(tokens[i + 1..], flag));
        values := values + [value];
      }
      i := i + 1;
    }
    assert values + [] == values;
    if |values| > 1 {
      return Err(BadRequest);
    }
    return Ok(if |values| == 1 then Some(values[0]) else None);
  }

  lemma PrependNothing(rest: Result<seq<string>>)
    ensures Prepend([], rest) == rest
  {
    if rest.Ok? { assert [] + rest.value == rest.value; }
  }

  lemma PrependTwice(a: seq<string>, b: seq<string>, rest: Result<seq<string>>)
    ensures Prepend(a, Prepend(b, rest)) == Prepend(a + b, rest)
  {
    if rest.Ok? { assert a + (b + rest.value) == (a + b) + rest.value; }
  }

  /** Token `i` gives the option a value: in the token after it, or after an equals sign. */
  predicate GivesAt(tokens: seq<string>, flag: string, i: nat, value: string) {
    && i < |tokens|
    && value != ""
    && if tokens[i] == flag then i + 1 < |tokens| && tokens[i + 1] == value && !StartsWith(value, "-")
       else tokens[i] == flag + "=" + value
  }

  lemma GivenLater(tokens: seq<string>, flag: string, k: nat, i: nat, value: string)
    requires k <= |tokens| && GivesAt(tokens[k..], flag, i, value)
    ensures GivesAt(tokens, flag, k + i, value)
  {
  }

  /** Every value that is read is given somewhere in the template, and is not empty. */
  lemma {:induction false} ValuesAreGiven(tokens: seq<string>, flag: string, value: string) returns (i: nat)
    requires OptionValues(tokens, flag).Ok? && value in OptionValues(tokens, flag).value
    ensures GivesAt(tokens, flag, i, value)
  {
    if tokens[0] == flag {
      if value == tokens[1] {
        i := 0;
      } else {
        var j := ValuesAreGiven(tokens[2..], flag, value);
        GivenLater(tokens, flag, 2, j, value);
        i := j + 2;
      }
    } else if StartsWith(tokens[0], flag + "=") && value == tokens[0][|flag| + 1..] {
      assert tokens[0] == flag + "=" + value;
      i := 0;
    } else {
      var j := ValuesAreGiven(tokens[1..], flag, value);
      GivenLater(tokens, flag, 1, j, value);
      i := j + 1;
    }
  }

  /** The reader answers a value only when the template gives it, and never two. */
  lemma SingleValueIsGiven(tokens: seq<string>, flag: string, value: string)
    requires SingleOption(tokens, flag) == Ok(Some(value))
    ensures OptionValues(tokens, flag) == Ok([value])
    ensures exists i: nat :: GivesAt(tokens, flag, i, value)
  {
    var values := OptionValues(tokens, flag).value;
    assert values == [value];
    var i := ValuesAreGiven(tokens, flag, value);
  }

  predicate IsModeOption(token: string) {
    token == FLAG || ModeWithValue(token)
  }

  predicate HasPermissionModeOption(tokens: seq<string>) {
    exists i :: 0 <= i < |tokens| && IsModeOption(tokens[i])
  }

  /** Nothing that is left is a permission-mode option, and only a template that has one is changed. */
  lemma {:induction false} WithoutModeHasNone(tokens: seq<string>)
    ensures !HasPermissionModeOption(WithoutMode(tokens))
    ensures |WithoutMode(tokens)| <= |tokens|
    ensures HasPermissionModeOption(tokens) <==> |WithoutMode(tokens)| < |tokens|
    ensures !HasPermissionModeOption(tokens) ==> WithoutMode(tokens) == tokens
  {
    if tokens != [] {
      if IsModeOption(tokens[0]) {
        WithoutModeHasNone(tokens[1..]);
        if |tokens| > 1 { WithoutModeHasNone(tokens[2..]); }
      } else {
        WithoutModeHasNone(tokens[1..]);
        HasInTail(tokens);
        HasInTail([tokens[0]] + WithoutMode(tokens[1..]));
      }
    }
  }

  lemma HasInTail(tokens: seq<string>)
    requires tokens != [] && !IsModeOption(tokens[0])
    ensures HasPermissionModeOption(tokens) <==> HasPermissionModeOption(tokens[1..])
  {
    if i :| 0 <= i < |tokens| && IsModeOption(tokens[i]) {
      assert tokens[1..][i - 1] == tokens[i];
    }
    if i :| 0 <= i < |tokens[1..]| && IsModeOption(tokens[1..][i]) {
      assert tokens[i + 1] == tokens[1..][i];
    }
  }

  lemma {:induction false} KeepsOthers(others: seq<string>, rest: seq<string>)
    requires !HasPermissionModeOption(others)
    ensures WithoutMode(others + rest) == others + WithoutMode(rest)
  {
    if others == [] {
      assert others + rest == rest;
    } else {
      assert !IsModeOption(others[0]);
      HasInTail(others);
      assert (others + rest)[1..] == others[1..] + rest;
      KeepsOthers(others[1..], rest);
    }
  }

  /** An option goes with the value after its equals sign, or with the next token unless that is an option too; the others stay. */
  lemma OptionsAreDropped(before: seq<string>, value: string, after: seq<string>)
    requires !HasPermissionModeOption(before)
    ensures WithoutMode(before + [FLAG]) == before
    ensures WithoutMode(before + ([FLAG, value] + after))
      == before + WithoutMode(if StartsWith(value, "-") then [value] + after else after)
    ensures WithoutMode(before + ([FLAG + "=" + value] + after)) == before + WithoutMode(after)
  {
    KeepsOthers(before, [FLAG]);
    KeepsOthers(before, [FLAG, value] + after);
    KeepsOthers(before, [FLAG + "=" + value] + after);
    assert before + [] == before;
    assert ([FLAG, value] + after)[1..] == [value] + after && ([FLAG, value] + after)[2..] == after;
    assert |FLAG + "=" + value| > |FLAG| && ModeWithValue(FLAG + "=" + value);
    assert ([FLAG + "=" + value] + after)[1..] == after;
  }

  lemma {:induction false} NoOptionReadsNothing(tokens: seq<string>)
    requires !HasPermissionModeOption(tokens)
    ensures SingleOption(tokens, FLAG) == Ok(None) && OptionValues(tokens, FLAG) == Ok([])
  {
    if tokens != [] {
      assert !IsModeOption(tokens[0]);
      HasInTail(tokens);
      NoOptionReadsNothing(tokens[1..]);
    }
  }

  lemma {:induction false} NothingReadHasNone(tokens: seq<string>)
    requires OptionValues(tokens, FLAG) == Ok([])
    ensures !HasPermissionModeOption(tokens)
  {
    if tokens != [] {
      assert !IsModeOption(tokens[0]);
      NothingReadHasNone(tokens[1..]);
      HasInTail(tokens);
    }
  }

  /** The reader answers that the mode is not set exactly when no token is a mode option. */
  lemma ReaderAgrees(tokens: seq<string>)
    ensures SingleOption(tokens, FLAG) == Ok(None) <==> !HasPermissionModeOption(tokens)
  {
    if !HasPermissionModeOption(tokens) {
      NoOptionReadsNothing(tokens);
    } else if OptionValues(tokens, FLAG) == Ok([]) {
      NothingReadHasNone(tokens);
    }
  }

  lemma {:induction false} SkipsOthers(others: seq<string>, rest: seq<string>)
    requires !HasPermissionModeOption(others)
    ensures OptionValues(others + rest, FLAG) == OptionValues(rest, FLAG)
  {
    if others == [] {
      assert others + rest == rest;
    } else {
      assert !IsModeOption(others[0]);
      HasInTail(others);
      assert (others + rest)[1..] == others[1..] + rest;
      SkipsOthers(others[1..], rest);
    }
  }

  /** A mode given once is read, in either form, and one that is given again is an error. */
  lemma OneModeIsRead(before: seq<string>, value: string, after: seq<string>)
    requires !HasPermissionModeOption(before) && value != ""
    ensures var r := if HasPermissionModeOption(after) then Err(BadRequest) else Ok(Some(value));
      && (!StartsWith(value, "-") ==> SingleOption(before + ([FLAG, value] + after), FLAG) == r)
      && SingleOption(before + ([FLAG + "=" + value] + after), FLAG) == r
  {
    var given := FLAG + "=" + value;
    assert given[|FLAG| + 1..] == value && |given| > |FLAG|;
    SkipsOthers(before, [FLAG, value] + after);
    SkipsOthers(before, [given] + after);
    assert ([FLAG, value] + after)[2..] == after && ([given] + after)[1..] == after;
    if !HasPermissionModeOption(after) {
      NoOptionReadsNothing(after);
    } else if OptionValues(after, FLAG) == Ok([]) {
      NothingReadHasNone(after);
    }
    if OptionValues(after, FLAG).Err? { OnlyBadRequests(after); }
  }

  lemma {:induction false} OnlyBadRequests(tokens: seq<string>)
    requires OptionValues(tokens, FLAG).Err?
    ensures OptionValues(tokens, FLAG) == Err(BadRequest)
  {
    if tokens != [] && OptionValues(tokens[1..], FLAG).Err? { OnlyBadRequests(tokens[1..]); }
    if |tokens| > 1 && OptionValues(tokens[2..], FLAG).Err? { OnlyBadRequests(tokens[2..]); }
  }

  /** A mode option that stands last, or that is followed by another option or by an empty text, is an error. */
  lemma MissingValueIsAnError(before: seq<string>, after: seq<string>)
    requires !HasPermissionModeOption(before) && (after == [] || after[0] == "" || StartsWith(after[0], "-"))
    ensures SingleOption(before + ([FLAG] + after), FLAG) == Err(BadRequest)
    ensures SingleOption(before + ([FLAG + "="] + after), FLAG) == Err(BadRequest)
  {
    SkipsOthers(before, [FLAG] + after);
    SkipsOthers(before, [FLAG + "="] + after);
    assert (FLAG + "=")[|FLAG| + 1..] == "";
  }

  // ---------------------------------------------------------------- profiles

  datatype Profile = Profile(name: string, command: string, template: Option<string>, mode: Option<string>)

  datatype Update = Update(name: Option<string>, command: Option<string>, template: Field<string>, mode: Field<string>)

  /**
   * The checks that are not part of this model: which commands name Claude, the command
   * allow-list, the other options of a template, and the other columns of a profile.
   */
  datatype Checks = Checks(isClaude: string -> bool, allowed: string -> bool, otherOptions: seq<string> -> bool,
                           otherColumns: Profile -> bool)

  function Text(template: Option<string>): string {
    if template.Some? then template.value else ""
  }

  function Tokens(p: Profile): seq<string> {
    Tokenize(Text(p.template))
  }

  /** The mode a template sets, when the template can be parsed. */
  function ParsedMode(template: Option<string>, checks: Checks): Result<Option<string>> {
    var tokens := Tokenize(Text(template));
    match SingleOption(tokens, FLAG)
    case Err(e) => Err(e)
    case Ok(mode) =>
      if !checks.otherOptions(tokens) || (mode.Some? && mode.value !in PERMISSION_MODES) then Err(BadRequest)
      else Ok(mode)
  }

  /** The mode a profile runs with: `None` for another vendor's command. */
  function Resolved(p: Profile, checks: Checks): Result<Option<string>> {
    if !checks.isClaude(p.command) then Ok(None)
    else if p.mode.Some? then Ok(p.mode)
    else
      match SingleOption(Tokens(p), FLAG)
      case Err(e) => Err(e)
      case Ok(None) => Ok(Some(DEFAULT_MODE))
      case Ok(Some(mode)) => if mode in PERMISSION_MODES then Ok(Some(mode)) else Err(BadRequest)
  }

  predicate SaveAllowed(p: Profile, templateIsBeingSet: bool, checks: Checks) {
    && (p.mode.Some? ==> checks.isClaude(p.command) && p.mode.value in PERMISSION_MODES)
    && checks.otherColumns(p)
    && (templateIsBeingSet && checks.isClaude(p.command) ==>
          ParsedMode(p.template, checks).Ok? && !HasPermissionModeOption(Tokens(p)))
  }

  function Merged(p: Profile, u: Update): Profile {
    Profile(if u.name.Some? then u.name.value else p.name,
            if u.command.Some? then Trim(u.command.value) else p.command,
            Pick(u.template, p.template), Pick(u.mode, p.mode))
  }

  /** The cleaned template of an update that resets the mode: what is stored for the stripped text. */
  function Cleaned(template: Option<string>, stripped: string): Option<string> {
    if template == Some(stripped) then template else if stripped == "" then None else Some(stripped)
  }

  /** The text the surgery may return for a template. */
  ghost predicate IsStripped(source: string, stripped: string) {
    && Tokenize(stripped) == WithoutMode(Tokenize(source))
    && (!HasPermissionModeOption(Tokenize(source)) ==> stripped == source)
  }

  /** The allow-list is asked for a command that is given and not empty. */
  predicate CommandAllowed(u: Update, checks: Checks) {
    u.command.Some? && u.command.value != "" ==> checks.allowed(Trim(u.command.value))
  }

  /** An explicit null for the mode of a Claude profile. */
  predicate ResetsMode(p: Profile, u: Update, checks: Checks) {
    CommandAllowed(u, checks) && checks.isClaude(Merged(p, u).command) && u.mode == Set(None)
  }

  /** What `stripped` is known to be: the surgery runs only when the mode is reset. */
  ghost predicate Surgical(p: Profile, u: Update, stripped: string, checks: Checks) {
    ResetsMode(p, u, checks) ==> IsStripped(Text(Merged(p, u).template), stripped)
  }

  predicate PromotesMode(p: Profile, u: Update, checks: Checks) {
    checks.isClaude(Merged(p, u).command) && u.mode.Keep? && p.mode.None?
  }

  predicate TemplateChanged(p: Profile, u: Update, template: Option<string>, checks: Checks) {
    || template != p.template
    || (u.command.Some? && checks.isClaude(Trim(u.command.value)) != checks.isClaude(p.command))
  }

  /** The row an update stores, given what the surgery returned. */
  function Updated(p: Profile, u: Update, stripped: string, checks: Checks): Result<Profile> {
    var merged := Merged(p, u);
    if !CommandAllowed(u, checks) then Err(BadRequest)
    else
      var template := if ResetsMode(p, u, checks) then Cleaned(merged.template, stripped) else merged.template;
      var parsed := if PromotesMode(p, u, checks) then ParsedMode(template, checks) else Ok(merged.mode);
      if parsed.Err? then Err(parsed.error)
      else
        var row := merged.(template := template, mode := parsed.value);
        if SaveAllowed(row, TemplateChanged(p, u, template, checks), checks) then Ok(row) else Err(BadRequest)
  }

  // ---------------------------------------------------------------- what an update promises

  /**
   * Resetting the mode of a Claude profile leaves it running with the default mode, whatever
   * its template said before, and leaves every other token of the template in place.
   */
  lemma ResetResolvesToDefault(p: Profile, u: Update, stripped: string, checks: Checks)
    requires Surgical(p, u, stripped, checks)
    requires u.mode == Set(None) && Updated(p, u, stripped, checks).Ok?
    requires checks.isClaude(Updated(p, u, stripped, checks).value.command)
    ensures var row := Updated(p, u, stripped, checks).value;
      && Resolved(row, checks) == Ok(Some(DEFAULT_MODE))
      && Tokens(row) == WithoutMode(Tokens(Merged(p, u)))
  {
    var row := Updated(p, u, stripped, checks).value;
    WithoutModeHasNone(Tokens(Merged(p, u)));
    assert Text(row.template) == stripped;
    NoOptionReadsNothing(Tokens(row));
  }

  /** After every accepted update a Claude profile resolves, and to a mode the command knows. */
  lemma UpdatedRowResolves(p: Profile, u: Update, stripped: string, checks: Checks)
    requires Surgical(p, u, stripped, checks)
    requires Updated(p, u, stripped, checks).Ok?
    requires checks.isClaude(Updated(p, u, stripped, checks).value.command)
    ensures var r := Resolved(Updated(p, u, stripped, checks).value, checks);
      r.Ok? && r.value.Some? && r.value.value in PERMISSION_MODES
  {
    if u.mode == Set(None) {
      ResetResolvesToDefault(p, u, stripped, checks);
    }
  }

  /**
   * An update that names neither mode, template nor command keeps the mode the profile runs
   * with, although the mode may move from the template into its column.
   */
  lemma QuietUpdateKeepsMode(p: Profile, u: Update, stripped: string, checks: Checks)
    requires u.mode.Keep? && u.template.Keep? && u.command.None?
    requires Updated(p, u, stripped, checks).Ok?
    ensures Resolved(Updated(p, u, stripped, checks).value, checks) == Resolved(p, checks)
    ensures Updated(p, u, stripped, checks).value.template == p.template
  {
    if PromotesMode(p, u, checks) {
      assert Merged(p, u).template == p.template;
    }
  }

  /** A template an update changes carries no mode option, so the mode stands in one place only. */
  lemma ChangedTemplateIsClean(p: Profile, u: Update, stripped: string, checks: Checks)
    requires Surgical(p, u, stripped, checks)
    requires Updated(p, u, stripped, checks).Ok?
    ensures var row := Updated(p, u, stripped, checks).value;
      checks.isClaude(row.command) && row.template != p.template ==> !HasPermissionModeOption(Tokens(row))
  {}

  predicate KnownMode(mode: string) {
    || mode == "acceptEdits" || mode == "auto" || mode == "bypassPermissions" || mode == "default" || mode == "dontAsk"
    || mode == "manual" || mode == "plan"
  }

  /** The template answers a mode, or that it has none, exactly when it reads as one, a known one, and the rest is fine. */
  lemma ParsedExactly(template: Option<string>, mode: Option<string>, checks: Checks)
    ensures var tokens := Tokenize(if template == None then "" else template.value);
      ParsedMode(template, checks) == Ok(mode) <==>
        && SingleOption(tokens, FLAG) == Ok(mode) && checks.otherOptions(tokens)
        && (mode.Some? ==> KnownMode(mode.value))
  {
  }

  /** The column decides, known or not; without one the template does, if it reads; without either the default. */
  lemma ResolvedExactly(p: Profile, mode: string, checks: Checks)
    ensures Resolved(p, checks) == Ok(Some(mode)) <==>
      && checks.isClaude(p.command)
      && if p.mode.Some? then p.mode.value == mode
         else || (SingleOption(Tokens(p), FLAG) == Ok(Some(mode)) && KnownMode(mode))
              || (SingleOption(Tokens(p), FLAG) == Ok(None) && mode == "bypassPermissions")
    ensures Resolved(p, checks) == Ok(None) <==> !checks.isClaude(p.command)
  {
  }

  function CommandAfter(p: Profile, u: Update): string {
    if u.command.Some? then Trim(u.command.value) else p.command
  }

  function TemplateGiven(p: Profile, u: Update): Option<string> {
    if u.template.Keep? then p.template else u.template.value
  }

  /** An update of the mode to null on a profile that is, or becomes, a Claude one. */
  predicate AsksForReset(p: Profile, u: Update, checks: Checks) {
    checks.isClaude(CommandAfter(p, u)) && u.mode == Set(None)
  }

  /** Each column of an accepted update: what is given replaces it, and a Claude profile's template moves its mode to the column. */
  lemma UpdatedColumns(p: Profile, u: Update, stripped: string, checks: Checks)
    requires Surgical(p, u, stripped, checks) && Updated(p, u, stripped, checks).Ok?
    ensures var row := Updated(p, u, stripped, checks).value;
      && row.name == (if u.name.Some? then u.name.value else p.name)
      && row.command == CommandAfter(p, u)
      && (!AsksForReset(p, u, checks) ==> row.template == TemplateGiven(p, u))
      && (AsksForReset(p, u, checks) ==> Tokens(row) == WithoutMode(Tokenize(Text(TemplateGiven(p, u)))))
      && (AsksForReset(p, u, checks) && !HasPermissionModeOption(Tokenize(Text(TemplateGiven(p, u)))) ==>
            row.template == TemplateGiven(p, u))
      && (u.mode.Set? ==> row.mode == u.mode.value)
      && (u.mode.Keep? && (p.mode.Some? || !checks.isClaude(row.command)) ==> row.mode == p.mode)
      && (u.mode.Keep? && p.mode.None? && checks.isClaude(row.command) ==> Ok(row.mode) == ParsedMode(row.template, checks))
  {
  }

  /**
   * An update that does not reset the mode is accepted exactly when its command is allowed, the
   * mode that is stored is a known one of a Claude profile, the other columns are fine, and a
   * Claude template that is new to the profile can be parsed and has no mode option.
   */
  lemma AcceptedExactly(p: Profile, u: Update, stripped: string, checks: Checks)
    requires !AsksForReset(p, u, checks)
    ensures var command, template := CommandAfter(p, u), TemplateGiven(p, u);
      var claude := checks.isClaude(command);
      var parsed := ParsedMode(template, checks);
      var promotes := claude && u.mode.Keep? && p.mode.None?;
      var mode := if u.mode.Set? then u.mode.value else if promotes && parsed.Ok? then parsed.value else p.mode;
      Updated(p, u, stripped, checks).Ok? <==>
        && (u.command.Some? && u.command.value != "" ==> checks.allowed(command))
        && (promotes ==> parsed.Ok?)
        && (mode.Some? ==> claude && KnownMode(mode.value))
        && checks.otherColumns(Profile(if u.name.Some? then u.name.value else p.name, command, template, mode))
        && (claude && (template != p.template || !checks.isClaude(p.command)) ==>
              parsed.Ok? && !HasPermissionModeOption(Tokenize(Text(template))))
  {
  }

  /** A reset is accepted exactly when the command is allowed and the stripped template passes the same checks. */
  lemma ResetAcceptedExactly(p: Profile, u: Update, stripped: string, checks: Checks)
    requires AsksForReset(p, u, checks) && Surgical(p, u, stripped, checks)
    ensures var command, given := CommandAfter(p, u), TemplateGiven(p, u);
      var template := if given == Some(stripped) then given else if stripped == "" then None else Some(stripped);
      Updated(p, u, stripped, checks).Ok? <==>
        && (u.command.Some? && u.command.value != "" ==> checks.allowed(command))
        && checks.otherColumns(Profile(if u.name.Some? then u.name.value else p.name, command, template, None))
        && (template != p.template || !checks.isClaude(p.command) ==> ParsedMode(template, checks).Ok?)
  {
    if CommandAllowed(u, checks) {
      WithoutModeHasNone(Tokens(Merged(p, u)));
      assert Text(Cleaned(Merged(p, u).template, stripped)) == stripped;
    }
  }

  // ---------------------------------------------------------------- the service

  class AgentProfileService {
    var profiles: map<string, Profile>
    const checks: Checks

    constructor (checks: Checks)
      ensures profiles == map[] && this.checks == checks
    {
      profiles := map[];
      this.checks := checks;
    }

    /** Parses a template for its mode. */
    method ParseClaudeArgsTemplate(template: Option<string>) returns (r: Result<Option<string>>)
      ensures r == ParsedMode(template, checks)
    {
      var tokens := Tokenize(Text(template));
      r := ReadSingleClaudeTemplateOption(tokens, FLAG);
      if r.Ok? {
        if !checks.otherOptions(tokens) || (r.value.Some? && r.value.value !in PERMISSION_MODES) {
          r := Err(BadRequest);
        }
      }
    }

    method ResolveClaudePermissionMode(p: Profile) returns (r: Result<Option<string>>)
      ensures r == Resolved(p, checks)
    {
      if !checks.isClaude(p.command) {
        return Ok(None);
      }
      if p.mode.Some? {
        return Ok(p.mode);
      }
      r := ReadSingleClaudeTemplateOption(Tokens(p), FLAG);
      if r.Ok? {
        if r.value.Some? && r.value.value !in PERMISSION_MODES {
          r := Err(BadRequest);
        } else if r.value.None? {
          r := Ok(Some(DEFAULT_MODE));
        }
      }
    }

    /** Changes one row, or none. */
    method UpdateProfile(id: string, u: Update) returns (r: Result<Profile>)
      modifies this
      ensures id !in old(profiles) ==> r == Err(NotFound)
      ensures id in old(profiles) ==>
        exists stripped :: Surgical(old(profiles)[id], u, stripped, checks)
          && r == Updated(old(profiles)[id], u, stripped, checks)
      ensures profiles == if r.Ok? then old(profiles)[id := r.value] else old(profiles)
    {
      if id !in profiles {
        return Err(NotFound);
      }
      var existing := profiles[id];
      var merged := Merged(existing, u);
      var stripped := "";
      if u.command.Some? && u.command.value != "" && !checks.allowed(merged.command) {
        assert Surgical(existing, u, stripped, checks);
        return Err(BadRequest);
      }
      if checks.isClaude(merged.command) && u.mode == Set(None) {
        stripped := StripClaudePermissionModeOption(Text(merged.template));
        StrippedOnlyIfSet(Text(merged.template));
        if merged.template != Some(stripped) {
          merged := merged.(template := if stripped == "" then None else Some(stripped));
        }
      }
      assert Surgical(existing, u, stripped, checks);
      if checks.isClaude(merged.command) && merged.mode.None? && u.mode.Keep? {
        var legacy := ParseClaudeArgsTemplate(merged.template);
        if legacy.Err? {
          return Err(legacy.error);
        }
        if legacy.value.Some? {
          merged := merged.(mode := legacy.value);
        }
      }
      if !SaveAllowed(merged, TemplateChanged(existing, u, merged.template, checks), checks) {
        return Err(BadRequest);
      }
      profiles := profiles[id := merged];
      return Ok(merged);
    }
  }

  lemma StrippedOnlyIfSet(source: string)
    ensures !HasPermissionModeOption(Tokenize(source)) ==> ModeRanges(Tokenize(source), 0) == []
  {
    if !HasPermissionModeOption(Tokenize(source)) {
      NoRanges(Tokenize(source), 0);
    }
  }

  lemma {:induction false} NoRanges(tokens: seq<string>, i: nat)
    requires i <= |tokens| && !HasPermissionModeOption(tokens)
    ensures ModeRanges(tokens, i) == []
    decreases |tokens| - i
  {
    if i < |tokens| {
      assert !IsModeOption(tokens[i]);
      NoRanges(tokens, i + 1);
    }
  }
}
