/**
 * The argument template of an agent profile: the tokenizer, the text surgery that removes the
 * permission-mode option, and the resolution of the mode. A `char` is a Unicode scalar value.
 */
module ArgsTemplate {
  import opened Common

  const FLAG := "--permission-mode"

  // ---------------------------------------------------------------- tokens

  /** The position of the first double quote, or the length if there is none. */
  function FirstQuote(s: string): (k: nat)
    ensures k <= |s|
    ensures k < |s| ==> s[k] == '"'
  {
    if s == "" then 0 else if s[0] == '"' then 0 else 1 + FirstQuote(s[1..])
  }

  /**
   * The length of the longest match of `(?:[^\s"]+|"[^"]*")+` at the start of the text, zero
   * when there is none: a quote without a closing one matches nothing.
   */
  function WordLen(s: string): (n: nat)
    ensures n <= |s|
    decreases |s|
  {
    if s == "" || IsSpace(s[0]) then 0
    else if s[0] == '"' then
      var k := FirstQuote(s[1..]);
      if k == |s| - 1 then 0 else k + 2 + WordLen(s[k + 2..])
    else 1 + WordLen(s[1..])
  }

  /** The global match list: words, skipping one character wherever none starts. */
  function RawTokens(s: string): seq<string>
    decreases |s|
  {
    if s == "" then []
    else
      var n := WordLen(s);
      if n == 0 then RawTokens(s[1..]) else [s[..n]] + RawTokens(s[n..])
  }

  /** Drops one pair of surrounding quotes, unless a line terminator stands between them. */
  function Unquote(token: string): string {
    if |token| >= 2 && token[0] == '"' && token[|token| - 1] == '"'
       && forall k :: 1 <= k < |token| - 1 ==> !IsLineTerminator(token[k])
    then token[1..|token| - 1] else token
  }

  function UnquoteAll(raw: seq<string>): seq<string> {
    seq(|raw|, i requires 0 <= i < |raw| => Unquote(raw[i]))
  }

  function Tokenize(template: string): seq<string> {
    UnquoteAll(RawTokens(template))
  }

  predicate StartsWith(s: string, prefix: string) {
    prefix <= s
  }

  predicate ModeWithValue(token: string) {
    StartsWith(token, FLAG + "=")
  }

  /** The tokens of a template without its permission-mode options and their values. */
  function WithoutMode(tokens: seq<string>): seq<string> {
    if tokens == [] then []
    else if tokens[0] == FLAG then
      if |tokens| > 1 && !StartsWith(tokens[1], "-") then WithoutMode(tokens[2..]) else WithoutMode(tokens[1..])
    else if ModeWithValue(tokens[0]) then WithoutMode(tokens[1..])
    else [tokens[0]] + WithoutMode(tokens[1..])
  }

  // ---------------------------------------------------------------- quotes and joints

  /** The text holds an odd number of double quotes. */
  predicate Odd(s: string) {
    s != "" && (s[0] == '"') != Odd(s[1..])
  }

  predicate Quoteless(s: string) {
    s == "" || (s[0] != '"' && Quoteless(s[1..]))
  }

  lemma QuotesAppend(a: string, b: string)
    ensures Odd(a + b) == (Odd(a) != Odd(b))
    ensures Quoteless(a + b) == (Quoteless(a) && Quoteless(b))
  {
    if a == "" {
      assert a + b == b;
    } else {
      QuotesAppend(a[1..], b);
      assert (a + b)[1..] == a[1..] + b;
    }
  }

  lemma NoQuotes(s: string)
    ensures Quoteless(s) <==> FirstQuote(s) == |s|
    ensures Quoteless(s) ==> !Odd(s)
    ensures Quoteless(s) && s != "" ==> s[|s| - 1] != '"'
  {
    if s != "" {
      NoQuotes(s[1..]);
    }
  }

  /** The first unit of a word: a quoted part, or one character. */
  function Unit(s: string): (k: nat)
    requires WordLen(s) > 0
    ensures 0 < k <= WordLen(s) && WordLen(s) == k + WordLen(s[k..])
  {
    if s[0] == '"' then FirstQuote(s[1..]) + 2 else 1
  }

  lemma UnitIsEven(s: string)
    requires WordLen(s) > 0
    ensures !Odd(s[..Unit(s)])
  {
    if s[0] == '"' {
      QuotedUnit(s, FirstQuote(s[1..]));
    } else {
      assert s[..1][1..] == "";
    }
  }

  /** A word holds whole pairs of quotes. */
  lemma WordHoldsPairs(s: string)
    ensures !Odd(s[..WordLen(s)])
    decreases |s|
  {
    var n := WordLen(s);
    if n > 0 {
      var k := Unit(s);
      UnitIsEven(s);
      WordHoldsPairs(s[k..]);
      QuotesAppend(s[..k], s[k..][..n - k]);
      assert s[..n] == s[..k] + s[k..][..n - k];
    }
  }

  /** No word starts where one ended. */
  lemma WordIsLongest(s: string)
    ensures WordLen(s[WordLen(s)..]) == 0
    decreases |s|
  {
    var n := WordLen(s);
    if n == 0 {
      assert s[0..] == s;
    } else {
      var rest := s[Unit(s)..];
      WordIsLongest(rest);
      assert s[n..] == rest[WordLen(rest)..];
    }
  }

  lemma BeforeFirstQuote(s: string)
    ensures Quoteless(s[..FirstQuote(s)])
  {
    if s != "" && s[0] != '"' {
      BeforeFirstQuote(s[1..]);
      assert s[..FirstQuote(s)][1..] == s[1..][..FirstQuote(s[1..])];
    }
  }

  lemma QuotedUnit(s: string, k: nat)
    requires |s| >= k + 2 && s[0] == '"' && k == FirstQuote(s[1..])
    ensures !Odd(s[..k + 2])
  {
    var inner := s[1..][..k];
    BeforeFirstQuote(s[1..]);
    NoQuotes(inner);
    assert s[..k + 2] == "\"" + (inner + "\"");
    QuotesAppend("\"", inner + "\"");
    QuotesAppend(inner, "\"");
    assert s[1..][k] == '"';
  }

  // ---------------------------------------------------------------- what a word is

  /** One turn of the repeated group of the match: a plain character, or a quoted part. */
  predicate Piece(p: string) {
    || (|p| == 1 && !IsSpace(p[0]) && p[0] != '"')
    || (|p| >= 2 && p[0] == '"' && p[|p| - 1] == '"' && forall k :: 0 < k < |p| - 1 ==> p[k] != '"')
  }

  function Together(pieces: seq<string>): string {
    if pieces == [] then "" else pieces[0] + Together(pieces[1..])
  }

  predicate Pieces(pieces: seq<string>) {
    pieces != [] && forall p :: p in pieces ==> Piece(p)
  }

  /** A text the whole of which is one match. */
  ghost predicate IsMatch(w: string) {
    exists pieces :: Pieces(pieces) && Together(pieces) == w
  }

  lemma QuoteIsFirst(s: string, k: nat)
    requires k < |s| && s[k] == '"' && forall j :: 0 <= j < k ==> s[j] != '"'
    ensures FirstQuote(s) == k
  {
    if k > 0 { QuoteIsFirst(s[1..], k - 1); }
  }

  lemma QuotelessBefore(s: string)
    ensures forall j :: 0 <= j < FirstQuote(s) ==> s[j] != '"'
  {
    if s != "" && s[0] != '"' {
      QuotelessBefore(s[1..]);
      assert forall j :: 0 < j < FirstQuote(s) ==> s[j] == s[1..][j - 1];
    }
  }

  /** What starts with a piece has a word there, which goes on as the rest does. */
  lemma PieceStartsWord(p: string, rest: string)
    requires Piece(p)
    ensures WordLen(p + rest) == |p| + WordLen(rest)
  {
    var s := p + rest;
    assert s[|p|..] == rest;
    if |p| > 1 { QuoteIsFirst(s[1..], |p| - 2); }
  }

  lemma {:induction false} WordHasPieces(s: string) returns (pieces: seq<string>)
    requires WordLen(s) > 0
    ensures Pieces(pieces) && Together(pieces) == s[..WordLen(s)]
    decreases |s|
  {
    var k := Unit(s);
    QuotelessBefore(s[1..]);
    pieces := [s[..k]];
    assert Piece(s[..k]);
    if WordLen(s[k..]) > 0 {
      var more := WordHasPieces(s[k..]);
      pieces := pieces + more;
      assert pieces[1..] == more;
      assert s[..WordLen(s)] == s[..k] + s[k..][..WordLen(s[k..])];
    } else {
      assert pieces[1..] == [] && s[..k] + "" == s[..k];
    }
  }

  lemma {:induction false} PiecesFit(pieces: seq<string>, rest: string)
    requires forall p :: p in pieces ==> Piece(p)
    ensures WordLen(Together(pieces) + rest) == |Together(pieces)| + WordLen(rest)
  {
    if pieces == [] {
      assert "" + rest == rest;
    } else {
      var tail := Together(pieces[1..]);
      PiecesFit(pieces[1..], rest);
      PieceStartsWord(pieces[0], tail + rest);
      assert Together(pieces) + rest == pieces[0] + (tail + rest);
    }
  }

  /** The match at the start of a text is its longest prefix made of pieces; there is none exactly when its length is zero. */
  lemma WordIsLongestMatch(s: string, n: nat)
    requires n <= |s|
    ensures n == WordLen(s) && n > 0 ==> IsMatch(s[..n])
    ensures IsMatch(s[..n]) ==> 0 < n <= WordLen(s)
  {
    if n == WordLen(s) && n > 0 {
      var pieces := WordHasPieces(s);
    }
    if pieces :| Pieces(pieces) && Together(pieces) == s[..n] {
      PiecesFit(pieces, s[n..]);
      assert s[..n] + s[n..] == s && pieces[0] in pieces;
    }
  }

  /** A word is one token, white space is none, and a quote that nothing closes is skipped. */
  lemma OneToken(w: string)
    requires IsMatch(w)
    ensures RawTokens(w) == [w]
  {
    assert w[..|w|] == w;
    WordIsLongestMatch(w, |w|);
    assert w[|w|..] == "";
  }

  lemma StrayQuoteIsSkipped(s: string)
    requires Quoteless(s)
    ensures RawTokens(['"'] + s) == RawTokens(s)
  {
    NoQuotes(s);
    assert (['"'] + s)[1..] == s;
  }

  /** A token that is quoted as a whole loses its quotes unless it has several lines; any other is kept as it is. */
  lemma TokensAreUnquoted(w: string)
    requires IsMatch(w)
    ensures forall q :: w == "\"" + q + "\"" && (forall k :: 0 <= k < |q| ==> !IsLineTerminator(q[k])) ==> Tokenize(w) == [q]
    ensures (|w| < 2 || w[0] != '"' || w[|w| - 1] != '"' || exists k :: 1 <= k < |w| - 1 && IsLineTerminator(w[k])) ==>
      Tokenize(w) == [w]
  {
    OneToken(w);
    assert UnquoteAll([w]) == [Unquote(w)];
    forall q | w == "\"" + q + "\"" && (forall k :: 0 <= k < |q| ==> !IsLineTerminator(q[k])) ensures Unquote(w) == q {
      assert w[1..|w| - 1] == q;
      assert forall k :: 1 <= k < |w| - 1 ==> w[k] == q[k - 1];
    }
  }

  // ---------------------------------------------------------------- texts that join

  /** A text whose last character keeps what follows from continuing its last word. */
  predicate EndsApart(r: string) {
    r != "" && (IsSpace(r[|r| - 1]) || (r[|r| - 1] == '"' && Odd(r)))
  }

  /** Two texts whose tokens do not interact when one follows the other. */
  predicate Joins(r: string, x: string) {
    && (!Odd(r) || Quoteless(x))
    && (r == "" || WordLen(x) == 0 || EndsApart(r))
  }

  lemma FirstQuoteAppend(a: string, b: string)
    ensures FirstQuote(a + b) == if FirstQuote(a) < |a| then FirstQuote(a) else |a| + FirstQuote(b)
  {
    if a == "" {
      assert a + b == b;
    } else {
      FirstQuoteAppend(a[1..], b);
      assert (a + b)[1..] == a[1..] + b;
    }
  }

  lemma EndsApartTail(r: string, n: nat)
    requires n < |r| && EndsApart(r) && !Odd(r[..n])
    ensures EndsApart(r[n..])
  {
    QuotesAppend(r[..n], r[n..]);
    assert r == r[..n] + r[n..];
  }

  lemma WordLenJoin(r: string, x: string)
    requires r != "" && Joins(r, x)
    ensures WordLen(r + x) == WordLen(r)
    decreases |r|, 2
  {
    if r[0] == '"' {
      QuotedJoin(r, x);
    } else if !IsSpace(r[0]) {
      NoQuotes(r[..1]);
      WordLenJoinTail(r, x, 1);
    }
  }

  lemma QuotedJoin(r: string, x: string)
    requires r != "" && Joins(r, x) && r[0] == '"'
    ensures WordLen(r + x) == WordLen(r)
    decreases |r|, 1
  {
    assert (r + x)[1..] == r[1..] + x;
    FirstQuoteAppend(r[1..], x);
    var k := FirstQuote(r[1..]);
    if k == |r| - 1 {
      UnclosedJoin(r, x);
    } else {
      QuotedUnit(r, k);
      WordLenJoinTail(r, x, k + 2);
    }
  }

  /** An opening quote that the text does not close is not closed by what follows either. */
  lemma UnclosedJoin(r: string, x: string)
    requires r != "" && r[0] == '"' && FirstQuote(r[1..]) == |r| - 1 && Joins(r, x)
    ensures FirstQuote(x) == |x|
  {
    NoQuotes(r[1..]);
    NoQuotes(x);
  }

  lemma WordLenJoinTail(r: string, x: string, n: nat)
    requires r != "" && Joins(r, x) && 0 < n <= |r| && !Odd(r[..n])
    requires !IsSpace(r[0]) && (n < |r| || WordLen(x) == 0 || EndsApart(r))
    requires n == |r| ==> !IsSpace(r[|r| - 1])
    ensures WordLen((r + x)[n..]) == WordLen(r[n..])
    decreases |r|, 0
  {
    var rest := r[n..];
    assert (r + x)[n..] == rest + x;
    QuotesAppend(r[..n], rest);
    assert r == r[..n] + rest;
    if rest == "" {
      assert rest + x == x;
    } else {
      if EndsApart(r) { EndsApartTail(r, n); }
      WordLenJoin(rest, x);
    }
  }

  /** What one step of the global match adds to the list. */
  function Taken(s: string): seq<string>
    requires s != ""
  {
    if WordLen(s) == 0 then [] else [s[..Stride(s)]]
  }

  lemma TokensStep(s: string)
    requires s != ""
    ensures RawTokens(s) == Taken(s) + RawTokens(s[Stride(s)..])
  {}

  lemma JoinStride(r: string, x: string)
    requires r != "" && Joins(r, x)
    ensures RawTokens(r + x) == Taken(r) + RawTokens(r[Stride(r)..] + x)
    ensures Joins(r[Stride(r)..], x)
  {
    WordLenJoin(r, x);
    var k := Stride(r);
    assert (r + x)[k..] == r[k..] + x && (r + x)[..k] == r[..k];
    TokensStep(r + x);
    JoinsTail(r, x);
  }

  lemma Regroup<T>(a: seq<T>, b: seq<T>, c: seq<T>)
    ensures (a + b) + c == a + (b + c)
  {}

  /** Tokenizing two texts that join is tokenizing each. */
  lemma {:induction false} JoinTokens(r: string, x: string)
    requires Joins(r, x)
    ensures RawTokens(r + x) == RawTokens(r) + RawTokens(x)
    decreases |r|
  {
    if r == "" {
      assert r + x == x;
    } else {
      JoinStride(r, x);
      TokensStep(r);
      var tail := r[Stride(r)..];
      JoinTokens(tail, x);
      Regroup(Taken(r), RawTokens(tail), RawTokens(x));
    }
  }

  lemma JoinsTail(r: string, x: string)
    requires r != "" && Joins(r, x)
    ensures Joins(r[Stride(r)..], x)
  {
    var k := Stride(r);
    assert r == r[..k] + r[k..];
    if StrayQuote(r) {
      NoQuotesAfterStray(r);
      JoinsAfterStray(r[k..], x);
    } else {
      StrideHoldsPairs(r);
      JoinsAfterPairs(r[..k], r[k..], x);
    }
  }

  /** How far one step of the global match goes. */
  function Stride(s: string): (k: nat)
    requires s != ""
    ensures 0 < k <= |s|
  {
    if WordLen(s) == 0 then 1 else WordLen(s)
  }

  predicate StrayQuote(s: string) {
    s != "" && s[0] == '"' && WordLen(s) == 0
  }

  lemma NoQuotesAfterStray(s: string)
    requires StrayQuote(s)
    ensures Quoteless(s[1..]) && s[..1] == "\""
  {
    NoQuotes(s[1..]);
    assert s[..1] == "\"";
  }

  lemma StrideHoldsPairs(s: string)
    requires s != "" && !StrayQuote(s)
    ensures !Odd(s[..Stride(s)])
  {
    if WordLen(s) == 0 {
      NoQuotes(s[..1]);
    } else {
      WordHoldsPairs(s);
    }
  }

  lemma JoinsAfterPairs(u: string, v: string, x: string)
    requires !Odd(u) && u != "" && Joins(u + v, x)
    ensures Joins(v, x)
  {
    QuotesAppend(u, v);
    if v != "" { EndsApartAfter(u, v); }
  }

  lemma EndsApartAfter(u: string, v: string)
    requires v != "" && !Odd(u)
    ensures EndsApart(u + v) <==> EndsApart(v)
  {
    QuotesAppend(u, v);
    assert (u + v)[|u + v| - 1] == v[|v| - 1];
  }

  lemma JoinsAfterStray(v: string, x: string)
    requires Quoteless(v) && Joins("\"" + v, x)
    ensures Joins(v, x)
  {
    NoQuotes(v);
    assert ("\"" + v)[1..] == v;
    if v != "" { assert ("\"" + v)[|v|] == v[|v| - 1]; }
  }

  // ---------------------------------------------------------------- where the tokens stand

  datatype Match = Match(text: string, start: nat, end: nat)

  predicate Within(m: Match, i: nat, s: string) {
    i <= m.start < m.end <= |s|
  }

  /** The first match at or after position `i`. */
  function NextMatch(s: string, i: nat): (m: Option<Match>)
    requires i <= |s|
    ensures m.Some? ==> Within(m.value, i, s)
    decreases |s| - i
  {
    if i == |s| then None
    else
      var n := WordLen(s[i..]);
      if n == 0 then NextMatch(s, i + 1) else Some(Match(s[i..i + n], i, i + n))
  }

  /** The matches from position `i` on. */
  function Matches(s: string, i: nat): seq<Match>
    requires i <= |s|
    decreases |s| - i
  {
    match NextMatch(s, i)
    case None => []
    case Some(m) => [m] + Matches(s, m.end)
  }

  function Texts(matches: seq<Match>): seq<string> {
    seq(|matches|, j requires 0 <= j < |matches| => matches[j].text)
  }

  lemma TextsCons(m: Match, rest: seq<Match>)
    ensures Texts([m] + rest) == [m.text] + Texts(rest)
  {}

  lemma SuffixStep(s: string, i: nat)
    requires i < |s|
    ensures WordLen(s[i..]) == 0 ==> RawTokens(s[i..]) == RawTokens(s[i + 1..])
    ensures var n := WordLen(s[i..]);
      n > 0 ==> RawTokens(s[i..]) == [s[i..i + n]] + RawTokens(s[i + n..])
  {
    SuffixSlices(s, i, Stride(s[i..]));
  }

  lemma SuffixSlices(s: string, i: nat, k: nat)
    requires i + k <= |s|
    ensures s[i..][k..] == s[i + k..] && s[i..][..k] == s[i..i + k]
  {}

  lemma {:induction false} FirstToken(s: string, i: nat)
    requires i <= |s|
    ensures NextMatch(s, i).None? ==> RawTokens(s[i..]) == []
    ensures NextMatch(s, i).Some? ==>
      var m := NextMatch(s, i).value; RawTokens(s[i..]) == [m.text] + RawTokens(s[m.end..])
    decreases |s| - i
  {
    if i < |s| {
      if WordLen(s[i..]) == 0 {
        FirstToken(s, i + 1);
      }
      FirstTokenHere(s, i);
    }
  }

  lemma NextMatchHere(s: string, i: nat)
    requires i < |s|
    ensures var n := WordLen(s[i..]);
      NextMatch(s, i) == if n == 0 then NextMatch(s, i + 1) else Some(Match(s[i..i + n], i, i + n))
  {}

  lemma FirstTokenHere(s: string, i: nat)
    requires i < |s|
    ensures WordLen(s[i..]) == 0 ==> NextMatch(s, i) == NextMatch(s, i + 1) && RawTokens(s[i..]) == RawTokens(s[i + 1..])
    ensures WordLen(s[i..]) != 0 ==>
      NextMatch(s, i).Some? && var m := NextMatch(s, i).value; RawTokens(s[i..]) == [m.text] + RawTokens(s[m.end..])
  {
    NextMatchHere(s, i);
    SuffixStep(s, i);
  }

  lemma {:induction false} TokensAreTexts(s: string, i: nat)
    requires i <= |s|
    ensures RawTokens(s[i..]) == Texts(Matches(s, i))
    decreases |s| - i
  {
    FirstToken(s, i);
    if NextMatch(s, i).Some? {
      var m := NextMatch(s, i).value;
      TokensAreTexts(s, m.end);
      TextsCons(m, Matches(s, m.end));
    }
  }

  /** A match starts where a word starts, takes the whole word, and is found again from there. */
  predicate IsWord(s: string, m: Match) {
    && Within(m, 0, s)
    && WordLen(s[m.start..]) == m.end - m.start
    && WordLen(s[m.end..]) == 0
    && NextMatch(s, m.start) == Some(m)
  }

  lemma FirstIsWord(s: string, i: nat)
    requires i < |s| && WordLen(s[i..]) > 0
    ensures IsWord(s, Match(s[i..i + WordLen(s[i..])], i, i + WordLen(s[i..])))
  {
    WordIsLongest(s[i..]);
    assert s[i..][WordLen(s[i..])..] == s[i + WordLen(s[i..])..];
  }

  lemma {:induction false} NextIsWord(s: string, i: nat)
    requires i <= |s| && NextMatch(s, i).Some?
    ensures IsWord(s, NextMatch(s, i).value)
    decreases |s| - i
  {
    if WordLen(s[i..]) == 0 {
      NextIsWord(s, i + 1);
    } else {
      FirstIsWord(s, i);
    }
  }

  /** The `j`-th match, and what is found from its start and from its end. */
  predicate Resumes(s: string, i: nat, m: Match, here: seq<Match>, after: seq<Match>) {
    && Within(m, i, s)
    && IsWord(s, m)
    && Matches(s, m.start) == here
    && Matches(s, m.end) == after
  }

  lemma {:induction false} MatchesResume(s: string, i: nat, j: nat)
    requires i <= |s| && j < |Matches(s, i)|
    ensures Resumes(s, i, Matches(s, i)[j], Matches(s, i)[j..], Matches(s, i)[j + 1..])
    decreases |s| - i
  {
    var all := Matches(s, i);
    var m := NextMatch(s, i).value;
    NextIsWord(s, i);
    if j == 0 {
      assert all[0..] == all && all[1..] == Matches(s, m.end);
    } else {
      MatchesResume(s, m.end, j - 1);
      assert all[j..] == Matches(s, m.end)[j - 1..] && all[j + 1..] == Matches(s, m.end)[j..];
    }
  }

  predicate Splits(s: string, i: nat, a: nat) {
    i <= a <= |s| && Joins(s[i..a], s[a..])
  }

  /** What stands between position `i` and the next match does not interact with what follows. */
  lemma {:induction false} GapSplits(s: string, i: nat, m: Match, a: nat)
    requires i <= |s| && NextMatch(s, i) == Some(m) && Splits(s, m.start, a)
    ensures Splits(s, i, a)
    decreases |s| - i
  {
    if WordLen(s[i..]) == 0 {
      GapSplits(s, i + 1, m, a);
      SplitsEarlier(s, i, 1, a);
    }
  }

  /** The text before a match does not interact with the match. */
  lemma {:induction false} MatchJoins(s: string, i: nat, j: nat, a: nat)
    requires i <= |s| && j < |Matches(s, i)| && a == Matches(s, i)[j].start
    ensures Splits(s, i, a)
    decreases |s| - i
  {
    var m := NextMatch(s, i).value;
    if j == 0 {
      SplitsHere(s, m.start);
    } else {
      NextIsWord(s, i);
      MatchJoins(s, m.end, j - 1, a);
      SplitsEarlier(s, m.start, m.end - m.start, a);
    }
    GapSplits(s, i, m, a);
  }

  lemma SplitsHere(s: string, i: nat)
    requires i <= |s|
    ensures Splits(s, i, i)
  {
    assert s[i..i] == "";
  }

  lemma SplitsEarlier(s: string, i: nat, k: nat, a: nat)
    requires i < |s| && k == Stride(s[i..]) && Splits(s, i + k, a)
    ensures Splits(s, i, a)
  {
    SplitAt(s, i + k, a);
    assert s[i..][k..] == s[i + k..];
    StrideJoins(s[i..], k, s[i + k..a], s[a..]);
    assert s[i..][..k] + s[i + k..a] == s[i..a];
  }

  lemma StrideJoins(s: string, k: nat, r: string, x: string)
    requires s != "" && k == Stride(s) && s[k..] == r + x && Joins(r, x)
    ensures Joins(s[..k] + r, x)
  {
    QuotesAppend(s[..k], r);
    QuotesAppend(r, x);
    if StrayQuote(s) {
      NoQuotesAfterStray(s);
      JoinsBeforeStray(r, x);
    } else {
      StrideHoldsPairs(s);
      if r == "" {
        assert x == s[k..];
        WordIsLongest(s);
      }
    }
  }

  lemma JoinsBeforeStray(r: string, x: string)
    requires Quoteless(r + x) && Joins(r, x)
    ensures Joins("\"" + r, x)
  {
    QuotesAppend(r, x);
    NoQuotes(r);
    assert ("\"" + r)[1..] == r;
    if r != "" { assert ("\"" + r)[|r|] == r[|r| - 1]; }
  }

  // ---------------------------------------------------------------- what a removal leaves

  /** A stretch of a text, or of a token list. */
  datatype Span = Span(start: nat, end: nat)

  /** Where the option that starts at token `i` ends, its value included; `i` if none starts there. */
  function OptionEnd(tokens: seq<string>, i: nat): (end: nat)
    requires i < |tokens|
    ensures i <= end <= |tokens|
  {
    if tokens[i] == FLAG then
      if i + 1 < |tokens| && !StartsWith(tokens[i + 1], "-") then i + 2 else i + 1
    else if ModeWithValue(tokens[i]) then i + 1
    else i
  }

  /** The ranges of tokens that make up permission-mode options, from token `i` on. */
  function ModeRanges(tokens: seq<string>, i: nat): seq<Span>
    requires i <= |tokens|
    decreases |tokens| - i
  {
    if i == |tokens| then []
    else
      var end := OptionEnd(tokens, i);
      if end > i then [Span(i, end)] + ModeRanges(tokens, end) else ModeRanges(tokens, i + 1)
  }

  predicate Ordered(ranges: seq<Span>, p: nat, n: nat) {
    if ranges == [] then p <= n
    else p <= ranges[0].start < ranges[0].end <= n && Ordered(ranges[1..], ranges[0].end, n)
  }

  /** What is left of a sequence from `p` on without the given ranges. */
  function Kept<T>(s: seq<T>, ranges: seq<Span>, p: nat): seq<T>
    requires Ordered(ranges, p, |s|)
    decreases |ranges|
  {
    if ranges == [] then s[p..]
    else s[p..ranges[0].start] + Kept(s, ranges[1..], ranges[0].end)
  }

  lemma KeptStep<T>(s: seq<T>, r: Span, rest: seq<Span>, p: nat)
    requires p <= r.start < r.end && Ordered(rest, r.end, |s|)
    ensures r.end <= |s|
    ensures Ordered([r] + rest, p, |s|)
    ensures Kept(s, [r] + rest, p) == s[p..r.start] + Kept(s, rest, r.end)
  {
    OrderedFits(rest, r.end, |s|);
    assert ([r] + rest)[1..] == rest;
  }

  lemma OrderedFits(ranges: seq<Span>, p: nat, n: nat)
    requires Ordered(ranges, p, n)
    ensures p <= n
  {
    if ranges != [] { OrderedFits(ranges[1..], ranges[0].end, n); }
  }

  lemma WithoutModeStep(tokens: seq<string>, i: nat)
    requires i < |tokens|
    ensures var end := OptionEnd(tokens, i);
      WithoutMode(tokens[i..])
      == if end > i then WithoutMode(tokens[end..]) else [tokens[i]] + WithoutMode(tokens[i + 1..])
  {
    var rest := tokens[i..];
    assert rest[1..] == tokens[i + 1..];
    if i + 2 <= |tokens| { assert rest[2..] == tokens[i + 2..]; }
  }

  /** Dropping the ranges from `p` on leaves the tokens up to `i` and then `rest`. */
  ghost predicate Leaves<T>(s: seq<T>, ranges: seq<Span>, p: nat, i: nat, rest: seq<T>) {
    && p <= i <= |s|
    && Ordered(ranges, p, |s|)
    && Kept(s, ranges, p) == s[p..i] + rest
  }

  lemma LeavesOut<T>(s: seq<T>, ranges: seq<Span>, p: nat, i: nat, end: nat, rest: seq<T>)
    requires p <= i < end && Leaves(s, ranges, end, end, rest)
    ensures Leaves(s, [Span(i, end)] + ranges, p, i, rest)
  {
    KeptStep(s, Span(i, end), ranges, p);
    assert s[end..end] + rest == rest;
  }

  lemma LeavesIn<T>(s: seq<T>, ranges: seq<Span>, p: nat, i: nat, rest: seq<T>)
    requires p <= i < |s| && Leaves(s, ranges, p, i + 1, rest)
    ensures Leaves(s, ranges, p, i, [s[i]] + rest)
  {
    assert s[p..i + 1] == s[p..i] + [s[i]];
  }

  lemma {:induction false} KeptWithoutMode(tokens: seq<string>, p: nat, i: nat)
    requires p <= i <= |tokens|
    ensures Leaves(tokens, ModeRanges(tokens, i), p, i, WithoutMode(tokens[i..]))
    decreases |tokens| - i
  {
    if i == |tokens| {
      assert tokens[p..] == tokens[p..i];
    } else {
      var end := OptionEnd(tokens, i);
      WithoutModeStep(tokens, i);
      if end > i {
        KeptWithoutMode(tokens, end, end);
        LeavesOut(tokens, ModeRanges(tokens, end), p, i, end, WithoutMode(tokens[end..]));
      } else {
        KeptWithoutMode(tokens, p, i + 1);
        LeavesIn(tokens, ModeRanges(tokens, i + 1), p, i, WithoutMode(tokens[i + 1..]));
      }
    }
  }

  lemma {:induction false} UnquoteKept(raw: seq<string>, ranges: seq<Span>, p: nat)
    requires Ordered(ranges, p, |raw|)
    ensures UnquoteAll(Kept(raw, ranges, p)) == Kept(UnquoteAll(raw), ranges, p)
    decreases |ranges|
  {
    if ranges == [] {
      assert UnquoteAll(raw[p..]) == UnquoteAll(raw)[p..];
    } else {
      var r, rest := ranges[0], ranges[1..];
      UnquoteKept(raw, rest, r.end);
      OrderedFits(rest, r.end, |raw|);
      UnquoteParts(raw[p..r.start], Kept(raw, rest, r.end));
      assert UnquoteAll(raw[p..r.start]) == UnquoteAll(raw)[p..r.start];
    }
  }

  lemma UnquoteParts(a: seq<string>, b: seq<string>)
    ensures UnquoteAll(a + b) == UnquoteAll(a) + UnquoteAll(b)
  {}

  // ---------------------------------------------------------------- white space around a removal

  lemma SpaceHasNoTokens(s: string)
    requires AllSpace(s)
    ensures RawTokens(s) == [] && Quoteless(s) && !Odd(s) && WordLen(s) == 0
  {
    if s != "" {
      assert IsSpace(s[0]);
      SpaceHasNoTokens(s[1..]);
    }
  }

  lemma TrailingSpace(a: string, w: string)
    requires AllSpace(w)
    ensures RawTokens(a + w) == RawTokens(a)
  {
    SpaceHasNoTokens(w);
    JoinTokens(a, w);
  }

  lemma {:induction false} TrimStartKeepsTokens(s: string)
    ensures RawTokens(TrimStart(s)) == RawTokens(s)
  {
    if s != "" && IsSpace(s[0]) {
      TrimStartKeepsTokens(s[1..]);
    }
  }

  lemma {:induction false} TrimEndKeepsTokens(s: string)
    ensures RawTokens(TrimEnd(s)) == RawTokens(s)
  {
    if s != "" && IsSpace(s[|s| - 1]) {
      TrimEndKeepsTokens(s[..|s| - 1]);
      TrailingSpace(s[..|s| - 1], [s[|s| - 1]]);
      assert s == s[..|s| - 1] + [s[|s| - 1]];
    }
  }

  lemma MatchesSkipSpace(s: string, a: nat, b: nat)
    requires a <= b <= |s| && forall k :: a <= k < b ==> IsSpace(s[k])
    ensures Matches(s, a) == Matches(s, b)
    decreases b - a
  {
    if a < b {
      assert s[a..][0] == s[a] && IsSpace(s[a]);
      MatchesSkipSpace(s, a + 1, b);
    }
  }

  // ---------------------------------------------------------------- one splice

  lemma JoinsPrefix(r: string, x: string, y: string)
    requires Joins(r, x + y)
    ensures Joins(r, x)
  {
    QuotesAppend(x, y);
    if x != "" && WordLen(x + y) == 0 {
      assert (x + y)[0] == x[0];
      assert (x + y)[1..] == x[1..] + y;
      FirstQuoteAppend(x[1..], y);
    }
  }

  /** The text between the cursor and a match holds exactly the tokens between them. */
  lemma TokensBetween(s: string, i: nat, j: nat)
    requires i <= |s| && j < |Matches(s, i)|
    ensures Within(Matches(s, i)[j], i, s)
    ensures RawTokens(s[i..Matches(s, i)[j].start]) == Texts(Matches(s, i)[..j])
  {
    var a := Matches(s, i)[j].start;
    MatchJoins(s, i, j, a);
    JoinTokens(s[i..a], s[a..]);
    SplitAt(s, i, a);
    TokensAreTexts(s, i);
    TokensAreTexts(s, a);
    MatchesResume(s, i, j);
    TextsSplit(Matches(s, i), j);
    SameTail(RawTokens(s[i..a]), Texts(Matches(s, i)[..j]), Texts(Matches(s, i)[j..]));
  }

  lemma TextsSplit(matches: seq<Match>, j: nat)
    requires j <= |matches|
    ensures Texts(matches) == Texts(matches[..j]) + Texts(matches[j..])
  {}

  lemma SameTail<T>(a: seq<T>, b: seq<T>, x: seq<T>)
    requires a + x == b + x
    ensures a == b
  {
    assert |a + x| == |b + x|;
    assert a == (a + x)[..|a|] && b == (b + x)[..|b|];
  }

  /** A removal from `start` to `end` around the text from `first` to `last`, as the surgery widens it. */
  ghost predicate Widens(s: string, cursor: nat, first: nat, last: nat, start: nat, end: nat) {
    && cursor <= start <= first <= last <= end <= |s|
    && (forall k :: start <= k < first ==> IsSpace(s[k]))
    && (forall k :: last <= k < end ==> IsSpace(s[k]))
    && (end == last || (start == first && (first == cursor || !IsSpace(s[first - 1]))))
  }

  /** The widened removal of the matches `j` to `h`. */
  ghost predicate Removes(s: string, cursor: nat, j: nat, h: nat, start: nat, end: nat) {
    && cursor <= |s| && j <= h < |Matches(s, cursor)|
    && Widens(s, cursor, Matches(s, cursor)[j].start, Matches(s, cursor)[h].end, start, end)
  }

  /** White space between the end of the copied text and a match holds no token. */
  lemma CopyTokens(s: string, result: string, cursor: nat, start: nat, first: nat)
    requires cursor <= start <= first <= |s| && Joins(result, s[cursor..])
    requires forall k :: start <= k < first ==> IsSpace(s[k])
    ensures RawTokens(result + s[cursor..start]) == RawTokens(result) + RawTokens(s[cursor..first])
  {
    SplitBetween(s, cursor, start, first);
    TrailingSpace(s[cursor..start], s[start..first]);
    SplitAt(s, cursor, start);
    JoinsPrefix(result, s[cursor..start], s[start..]);
    JoinTokens(result, s[cursor..start]);
  }

  lemma SpliceTokens(s: string, result: string, cursor: nat, j: nat, h: nat, start: nat, end: nat)
    requires Removes(s, cursor, j, h, start, end)
    requires Joins(result, s[cursor..])
    ensures RawTokens(result + s[cursor..start]) == RawTokens(result) + Texts(Matches(s, cursor)[..j])
  {
    TokensBetween(s, cursor, j);
    CopyTokens(s, result, cursor, start, Matches(s, cursor)[j].start);
  }

  lemma SpliceMatches(s: string, cursor: nat, j: nat, h: nat, start: nat, end: nat)
    requires Removes(s, cursor, j, h, start, end)
    ensures Matches(s, end) == Matches(s, cursor)[h + 1..]
  {
    MatchesResume(s, cursor, h);
    MatchesSkipSpace(s, Matches(s, cursor)[h].end, end);
  }

  lemma MatchOrder(s: string, i: nat, j: nat, h: nat)
    requires i <= |s| && j <= h < |Matches(s, i)|
    ensures i <= Matches(s, i)[j].start < Matches(s, i)[h].end <= |s|
  {
    MatchesResume(s, i, j);
    if j < h {
      MatchesResume(s, Matches(s, i)[j].end, h - j - 1);
    }
  }

  /** The quotes before and after the removal never pair up with each other. */
  lemma SpliceQuotes(s: string, result: string, cursor: nat, start: nat, first: nat, end: nat)
    requires cursor <= start <= first <= end <= |s|
    requires Joins(result, s[cursor..]) && Joins(s[cursor..first], s[first..])
    requires forall k :: start <= k < first ==> IsSpace(s[k])
    ensures !Odd(result + s[cursor..start]) || Quoteless(s[end..])
    ensures Odd(s[cursor..start]) == Odd(s[cursor..first])
  {
    var gap := s[start..first];
    SplitBetween(s, cursor, start, first);
    QuotesAppend(s[cursor..start], gap);
    SpaceHasNoTokens(gap);
    QuotesAppend(result, s[cursor..start]);
    SplitAt(s, cursor, end);
    QuotesAppend(s[cursor..end], s[end..]);
    SplitAt(s, first, end);
    QuotesAppend(s[first..end], s[end..]);
  }

  /** When no white space is left before the removal, the text before it keeps the next word apart. */
  lemma SpliceEnds(s: string, result: string, cursor: nat, first: nat)
    requires cursor <= first < |s| && WordLen(s[first..]) > 0
    requires Joins(result, s[cursor..]) && Joins(s[cursor..first], s[first..])
    requires first == cursor || !IsSpace(s[first - 1])
    ensures result + s[cursor..first] == "" || EndsApart(result + s[cursor..first])
  {
    var piece := s[cursor..first];
    if piece == "" {
      assert result + piece == result;
    } else {
      assert piece[|piece| - 1] == s[first - 1];
      QuotesAppend(result, piece);
      SplitAt(s, cursor, first);
      QuotesAppend(piece, s[first..]);
      NoQuotes(piece);
      assert (result + piece)[|result + piece| - 1] == s[first - 1];
    }
  }

  lemma SpliceJoins(s: string, result: string, cursor: nat, j: nat, h: nat, start: nat, end: nat)
    requires Removes(s, cursor, j, h, start, end)
    requires Joins(result, s[cursor..])
    ensures Joins(result + s[cursor..start], s[end..])
  {
    MatchOrder(s, cursor, j, h);
    MatchJoins(s, cursor, j, Matches(s, cursor)[j].start);
    MatchesResume(s, cursor, j);
    MatchesResume(s, cursor, h);
    CopyJoins(s, result, cursor, start, Matches(s, cursor)[j], Matches(s, cursor)[h], end);
  }

  lemma CopyJoins(s: string, result: string, cursor: nat, start: nat, first: Match, last: Match, end: nat)
    requires first.start < last.end
    requires Widens(s, cursor, first.start, last.end, start, end)
    requires Joins(result, s[cursor..]) && Splits(s, cursor, first.start)
    requires IsWord(s, first) && IsWord(s, last)
    ensures Joins(result + s[cursor..start], s[end..])
  {
    SpliceQuotes(s, result, cursor, start, first.start, end);
    if end != last.end {
      SpliceEnds(s, result, cursor, first.start);
    }
  }

  function RemovalOf(matches: seq<Match>, r: Span): Span
    requires r.start < r.end <= |matches|
  {
    Span(matches[r.start].start, matches[r.end - 1].end)
  }

  predicate RemovalsOf(removals: seq<Span>, matches: seq<Match>, ranges: seq<Span>) {
    && |removals| == |ranges|
    && forall k :: 0 <= k < |ranges| ==>
      ranges[k].start < ranges[k].end <= |matches| && removals[k] == RemovalOf(matches, ranges[k])
  }

  lemma AddRemoval(removals: seq<Span>, matches: seq<Match>, ranges: seq<Span>, r: Span)
    requires RemovalsOf(removals, matches, ranges) && r.start < r.end <= |matches|
    ensures RemovalsOf(removals + [RemovalOf(matches, r)], matches, ranges + [r])
  {}

  lemma ModeRangesStep(tokens: seq<string>, i: nat, done: seq<Span>)
    requires i < |tokens| && done + ModeRanges(tokens, i) == ModeRanges(tokens, 0)
    ensures var end := OptionEnd(tokens, i);
      if end > i then (done + [Span(i, end)]) + ModeRanges(tokens, end) == ModeRanges(tokens, 0)
      else done + ModeRanges(tokens, i + 1) == ModeRanges(tokens, 0)
  {}

  /** First loop: the matched options, as text ranges. */
  method FindRemovals(tokens: seq<string>, matches: seq<Match>) returns (removals: seq<Span>)
    requires |tokens| == |matches|
    ensures RemovalsOf(removals, matches, ModeRanges(tokens, 0))
  {
    removals := [];
    ghost var ranges: seq<Span> := [];
    var i: nat := 0;
    while i < |matches|
      invariant i <= |matches|
      invariant ranges + ModeRanges(tokens, i) == ModeRanges(tokens, 0)
      invariant RemovalsOf(removals, matches, ranges)
    {
      ModeRangesStep(tokens, i, ranges);
      ghost var option := Span(i, OptionEnd(tokens, i));
      if tokens[i] == FLAG {
        var hasValue := i + 1 < |matches| && !StartsWith(tokens[i + 1], "-");
        var removal := Span(matches[i].start, if hasValue then matches[i + 1].end else matches[i].end);
        assert removal == RemovalOf(matches, option);
        AddRemoval(removals, matches, ranges, option);
        removals := removals + [removal];
        ranges := ranges + [option];
        if hasValue { i := i + 1; }
      } else if ModeWithValue(tokens[i]) {
        var removal := Span(matches[i].start, matches[i].end);
        assert removal == RemovalOf(matches, option);
        AddRemoval(removals, matches, ranges, option);
        removals := removals + [removal];
        ranges := ranges + [option];
      }
      i := i + 1;
    }
  }

  /** Takes the white space before a removal, or, when there is none, the white space after it. */
  method Widen(source: string, cursor: nat, removal: Span) returns (start: nat, end: nat)
    requires cursor <= removal.start < removal.end <= |source|
    ensures Widens(source, cursor, removal.start, removal.end, start, end)
  {
    start, end := removal.start, removal.end;
    if start > cursor && IsSpace(source[start - 1]) {
      while start > cursor && IsSpace(source[start - 1])
        invariant cursor <= start <= removal.start
        invariant forall k :: start <= k < removal.start ==> IsSpace(source[k])
      {
        start := start - 1;
      }
    } else {
      while end < |source| && IsSpace(source[end])
        invariant removal.end <= end <= |source|
        invariant forall k :: removal.end <= k < end ==> IsSpace(source[k])
      {
        end := end + 1;
      }
    }
  }

  /** The surgery part-way: the tokens copied, followed by those to copy yet, are the tokens to keep. */
  ghost predicate Surgery(source: string, matches: seq<Match>, result: string, cursor: nat, p: nat,
                          ahead: seq<string>, goal: seq<string>) {
    && cursor <= |source| && p <= |matches|
    && Matches(source, cursor) == matches[p..]
    && Joins(result, source[cursor..])
    && RawTokens(result) + ahead == goal
  }

  lemma SurgeryStep(source: string, matches: seq<Match>, result: string, cursor: nat, p: nat, goal: seq<string>,
                    j: nat, h: nat, start: nat, end: nat, rest: seq<string>)
    requires p <= |matches| && j <= |matches[p..]|
    requires Surgery(source, matches, result, cursor, p, Texts(matches[p..][..j]) + rest, goal)
    requires Removes(source, cursor, j, h, start, end)
    ensures Surgery(source, matches, result + source[cursor..start], end, p + h + 1, rest, goal)
  {
    CursorMoves(source, matches, result, cursor, p, j, h, start, end);
    Regroup(RawTokens(result), Texts(matches[p..][..j]), rest);
  }

  lemma CursorMoves(source: string, matches: seq<Match>, result: string, cursor: nat, p: nat, j: nat, h: nat,
                    start: nat, end: nat)
    requires p <= |matches| && cursor <= |source| && Matches(source, cursor) == matches[p..]
    requires Removes(source, cursor, j, h, start, end) && Joins(result, source[cursor..])
    ensures RawTokens(result + source[cursor..start]) == RawTokens(result) + Texts(matches[p..][..j])
    ensures p + h + 1 <= |matches| && Matches(source, end) == matches[p + h + 1..]
    ensures Joins(result + source[cursor..start], source[end..])
  {
    SpliceTokens(source, result, cursor, j, h, start, end);
    SpliceMatches(source, cursor, j, h, start, end);
    SpliceJoins(source, result, cursor, j, h, start, end);
    assert matches[p..][h + 1..] == matches[p + h + 1..];
  }

  /** What is to be copied from match `p` on. */
  ghost predicate Planned(matches: seq<Match>, left: seq<Span>, p: nat, ahead: seq<string>) {
    Ordered(left, p, |matches|) && ahead == Kept(Texts(matches), left, p)
  }

  /** The tokens to copy yet, split at the next removal. */
  lemma PlanNext(matches: seq<Match>, left: seq<Span>, p: nat, ahead: seq<string>)
    returns (j: nat, h: nat, rest: seq<string>)
    requires left != [] && Planned(matches, left, p, ahead)
    ensures left[0] == Span(p + j, p + h + 1) && j <= h && p + h < |matches|
    ensures ahead == Texts(matches[p..][..j]) + rest
    ensures Planned(matches, left[1..], p + h + 1, rest)
  {
    OrderedFits(left[1..], left[0].end, |matches|);
    j, h := left[0].start - p, left[0].end - 1 - p;
    rest := Kept(Texts(matches), left[1..], left[0].end);
    TextsBetween(matches, p, left[0].start);
  }

  lemma PlanDone(matches: seq<Match>, p: nat, ahead: seq<string>)
    requires Planned(matches, [], p, ahead)
    ensures p <= |matches| && ahead == Texts(matches)[p..]
  {
  }

  lemma SurgeryEnd(source: string, matches: seq<Match>, result: string, cursor: nat, p: nat, goal: seq<string>)
    requires p <= |matches| && Surgery(source, matches, result, cursor, p, Texts(matches)[p..], goal)
    ensures RawTokens(Trim(result + source[cursor..])) == goal
  {
    JoinTokens(result, source[cursor..]);
    TokensAreTexts(source, cursor);
    TextsBetween(matches, p, |matches|);
    TrimStartKeepsTokens(result + source[cursor..]);
    TrimEndKeepsTokens(TrimStart(result + source[cursor..]));
  }

  lemma TextsBetween(matches: seq<Match>, p: nat, q: nat)
    requires p <= q <= |matches|
    ensures Texts(matches[p..][..q - p]) == Texts(matches)[p..q]
    ensures Texts(matches[p..]) == Texts(matches)[p..]
  {}

  /** What the surgery has to keep, and where it starts. */
  lemma SurgeryStart(source: string, matches: seq<Match>) returns (left: seq<Span>, goal: seq<string>)
    requires matches == Matches(source, 0)
    ensures left == ModeRanges(Tokenize(source), 0)
    ensures Planned(matches, left, 0, goal)
    ensures Surgery(source, matches, "", 0, 0, goal, goal)
    ensures UnquoteAll(goal) == WithoutMode(Tokenize(source))
    ensures Tokenize(source) == UnquoteAll(Texts(matches))
    ensures left == [] ==> goal == RawTokens(source)
  {
    var raw := RawTokens(source);
    var tokens := UnquoteAll(raw);
    left := ModeRanges(tokens, 0);
    KeptWithoutMode(tokens, 0, 0);
    UnquoteKept(raw, left, 0);
    goal := Kept(raw, left, 0);
    assert source[0..] == source && tokens[0..] == tokens && tokens[0..0] == [] && raw[0..] == raw;
    TokensAreTexts(source, 0);
    assert matches[0..] == matches;
  }

  /** The next removal, seen from the cursor. */
  lemma NextRemoval(source: string, matches: seq<Match>, cursor: nat, p: nat, j: nat, h: nat, removal: Span)
    requires cursor <= |source| && j <= h && p + h < |matches| && Matches(source, cursor) == matches[p..]
    requires removal == RemovalOf(matches, Span(p + j, p + h + 1))
    ensures h < |Matches(source, cursor)|
    ensures removal.start == Matches(source, cursor)[j].start && removal.end == Matches(source, cursor)[h].end
    ensures cursor <= removal.start < removal.end <= |source|
  {
    MatchOrder(source, cursor, j, h);
  }

  /** One turn of the second loop: widens a removal and copies what stands before it. */
  method CopyBefore(source: string, removal: Span, result: string, cursor: nat, ghost matches: seq<Match>,
                    ghost p: nat, ghost j: nat, ghost h: nat, ghost rest: seq<string>, ghost goal: seq<string>)
    returns (copied: string, next: nat)
    requires j <= h && p + h < |matches| && removal == RemovalOf(matches, Span(p + j, p + h + 1))
    requires Surgery(source, matches, result, cursor, p, Texts(matches[p..][..j]) + rest, goal)
    ensures Surgery(source, matches, copied, next, p + h + 1, rest, goal)
  {
    NextRemoval(source, matches, cursor, p, j, h, removal);
    var start, end := Widen(source, cursor, removal);
    SurgeryStep(source, matches, result, cursor, p, goal, j, h, start, end, rest);
    copied := result + source[cursor..start];
    next := end;
  }

  lemma SuffixTail<T>(s: seq<T>, k: nat)
    requires k < |s|
    ensures s[k..][0] == s[k] && s[k..][1..] == s[k + 1..]
  {}

  /** Second loop: copies what stands between the removals. */
  method CopyAround(source: string, ghost matches: seq<Match>, removals: seq<Span>, ghost ranges: seq<Span>,
                    ghost goal: seq<string>) returns (result: string)
    requires RemovalsOf(removals, matches, ranges)
    requires Planned(matches, ranges, 0, goal) && Surgery(source, matches, "", 0, 0, goal, goal)
    ensures RawTokens(result) == goal
  {
    result := "";
    var cursor: nat := 0;
    ghost var p: nat, ahead := 0, goal;
    ghost var left := ranges;
    var k: nat := 0;
    while k < |removals|
      invariant k <= |removals| && left == ranges[k..]
      invariant Planned(matches, left, p, ahead)
      invariant Surgery(source, matches, result, cursor, p, ahead, goal)
    {
      ghost var j, h, rest := PlanNext(matches, left, p, ahead);
      SuffixTail(ranges, k);
      result, cursor := CopyBefore(source, removals[k], result, cursor, matches, p, j, h, rest, goal);
      p, ahead, left := p + h + 1, rest, left[1..];
      k := k + 1;
    }
    PlanDone(matches, p, ahead);
    SurgeryEnd(source, matches, result, cursor, p, goal);
    result := Trim(result + source[cursor..]);
  }

  /**
   * Removes the permission-mode options from a template. Tokenizing commutes with the surgery:
   * the tokens of the result are the tokens of the source without those options.
   */
  method StripClaudePermissionModeOption(source: string) returns (result: string)
    ensures Tokenize(result) == WithoutMode(Tokenize(source))
    ensures ModeRanges(Tokenize(source), 0) == [] ==> result == source
  {
    var matches := Matches(source, 0);
    var removals := FindRemovals(UnquoteAll(Texts(matches)), matches);
    ghost var ranges, goal := SurgeryStart(source, matches);
    if |removals| == 0 {
      return source;
    }
    result := CopyAround(source, matches, removals, ranges, goal);
  }
}
