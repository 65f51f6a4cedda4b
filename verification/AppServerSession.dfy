/**
 * The session with the Codex app server: newline-framed messages read in chunks, and requests
 * that wait for the response with their id. The model covers one child process.
 */
module AppServerSession {
  import opened Common

  /** What the session sees in one line; only a bare `null` has no properties to read. */
  datatype Message = Invalid | Null | NoId | WithId(id: int)

  /** How a request ended. */
  datatype Ending = Response(line: string) | TimedOut | Exited | Failed | NotRunning | WriteFailed

  datatype Settlement = Settlement(id: int, ending: Ending)

  /**
   * The session: `pending` are the requests without an answer, oldest first, `settled` what the
   * callers have been told, `handled` the lines taken out of the buffer.
   */
  datatype Session = Session(running: bool, buffer: string, pending: seq<int>, nextId: int, settled: seq<Settlement>,
                             handled: seq<string>)

  const FRESH := Session(false, "", [], 1, [], [])

  // ---------------------------------------------------------------- lines

  /** The position of the first newline, or the length if there is none. */
  function Newline(s: string): (k: nat)
    ensures k <= |s|
    ensures k < |s| ==> s[k] == '\n'
  {
    if s == "" || s[0] == '\n' then 0 else 1 + Newline(s[1..])
  }

  /** The complete lines of a text. */
  function Lines(t: string): seq<string>
    decreases |t|
  {
    var i := Newline(t);
    if i == |t| then [] else [t[..i]] + Lines(t[i + 1..])
  }

  /** What follows the last newline. */
  function Rest(t: string): string
    decreases |t|
  {
    var i := Newline(t);
    if i == |t| then t else Rest(t[i + 1..])
  }

  lemma {:induction false} NewlineAppend(a: string, b: string)
    ensures Newline(a + b) == if Newline(a) < |a| then Newline(a) else |a| + Newline(b)
  {
    if a == "" {
      assert a + b == b;
    } else {
      NewlineAppend(a[1..], b);
      assert (a + b)[1..] == a[1..] + b;
    }
  }

  /** The lines of a longer text continue from what the shorter one left over. */
  lemma {:induction false} LinesAppend(a: string, b: string)
    ensures Lines(a + b) == Lines(a) + Lines(Rest(a) + b)
    ensures Rest(a + b) == Rest(Rest(a) + b)
    decreases |a|
  {
    var i := Newline(a);
    if i < |a| {
      var line, tail := a[..i], a[i + 1..];
      NewlineAppend(a, b);
      assert (a + b)[i + 1..] == tail + b && (a + b)[..i] == line;
      LinesStep(a, line, tail);
      LinesStep(a + b, line, tail + b);
      LinesAppend(tail, b);
    } else {
      NoLineYet(a);
    }
  }

  lemma NoLineYet(t: string)
    requires Newline(t) == |t|
    ensures Lines(t) == [] && Rest(t) == t
  {
  }

  lemma {:induction false} RestHasNoLine(t: string)
    ensures Newline(Rest(t)) == |Rest(t)|
    ensures Lines(Rest(t)) == []
    decreases |t|
  {
    var i := Newline(t);
    if i < |t| { RestHasNoLine(t[i + 1..]); }
  }

  /** Lines with their newlines. */
  function Unlines(lines: seq<string>): string {
    if lines == [] then "" else lines[0] + "\n" + Unlines(lines[1..])
  }

  /** A text is its lines, each ended by a newline, and what is left over; none of them has a newline inside. */
  lemma {:induction false} LinesAreTheText(t: string)
    ensures t == Unlines(Lines(t)) + Rest(t)
    ensures forall line :: line in Lines(t) + [Rest(t)] ==> '\n' !in line
    decreases |t|
  {
    var i := Newline(t);
    BeforeNewline(t);
    if i < |t| {
      assert t == t[..i] + "\n" + t[i + 1..];
      LinesAreTheText(t[i + 1..]);
      assert Lines(t)[1..] == Lines(t[i + 1..]);
    } else {
      NoLineYet(t);
      assert t[..i] == t;
    }
  }

  lemma {:induction false} BeforeNewline(t: string)
    ensures '\n' !in t[..Newline(t)]
  {
    if t != "" && t[0] != '\n' {
      BeforeNewline(t[1..]);
      assert t[..Newline(t)] == [t[0]] + t[1..][..Newline(t[1..])];
    }
  }

  // ---------------------------------------------------------------- handling

  /** How a line is read: trimmed, then parsed; a blank line says nothing. */
  function Reader(parse: string -> Message): string -> Message {
    line => if Trim(line) == "" then Invalid else parse(Trim(line))
  }

  /** Reading the id of a bare `null` throws out of the handler. */
  predicate Throws(line: string, read: string -> Message) {
    read(line).Null?
  }

  function HandleLine(s: Session, line: string, read: string -> Message): Session {
    var after := s.(handled := s.handled + [line]);
    match read(line)
    case WithId(id) =>
      if id in s.pending then
        Settle(after, id, Response(line))
      else after
    case _ => after
  }

  function Without(ids: seq<int>, id: int): seq<int> {
    if ids == [] then [] else if ids[0] == id then ids[1..] else [ids[0]] + Without(ids[1..], id)
  }

  function Settle(s: Session, id: int, ending: Ending): Session {
    s.(pending := Without(s.pending, id), settled := s.settled + [Settlement(id, ending)])
  }

  /** Handles the complete lines of the buffer, up to the first one that throws. */
  function Drain(s: Session, read: string -> Message): (Session, bool)
    decreases |s.buffer|
  {
    var i := Newline(s.buffer);
    if i == |s.buffer| then (s, false)
    else
      var line := s.buffer[..i];
      var after := HandleLine(s.(buffer := s.buffer[i + 1..]), line, read);
      if Throws(line, read) then (after, true) else Drain(after, read)
  }

  function Receive(s: Session, chunk: string, read: string -> Message): Session {
    Drain(s.(buffer := s.buffer + chunk), read).0
  }

  function Feed(s: Session, chunks: seq<string>, read: string -> Message): Session {
    if chunks == [] then s else Receive(Feed(s, chunks[..|chunks| - 1], read), chunks[|chunks| - 1], read)
  }

  function Concat(chunks: seq<string>): string {
    if chunks == [] then "" else Concat(chunks[..|chunks| - 1]) + chunks[|chunks| - 1]
  }

  function HandleAll(s: Session, lines: seq<string>, read: string -> Message): Session {
    if lines == [] then s else HandleLine(HandleAll(s, lines[..|lines| - 1], read), lines[|lines| - 1], read)
  }

  /** What a session with an empty buffer should be after a text, however it arrived. */
  function Target(s: Session, text: string, read: string -> Message): Session {
    HandleAll(s, Lines(text), read).(buffer := Rest(text))
  }

  /** No line but possibly the last throws. */
  predicate QuietButLast(lines: seq<string>, read: string -> Message) {
    forall i :: 0 <= i < |lines| - 1 ==> !Throws(lines[i], read)
  }

  // ---------------------------------------------------------------- chunking

  lemma {:induction false} HandleAllSplits(s: Session, a: seq<string>, b: seq<string>, read: string -> Message)
    ensures HandleAll(s, a + b, read) == HandleAll(HandleAll(s, a, read), b, read)
  {
    if b == [] {
      assert a + b == a;
    } else {
      assert (a + b)[..|a + b| - 1] == a + b[..|b| - 1];
      HandleAllSplits(s, a, b[..|b| - 1], read);
    }
  }

  lemma HandleOne(s: Session, line: string, read: string -> Message)
    ensures HandleAll(s, [line], read) == HandleLine(s, line, read)
  {
    assert [line][..0] == [];
  }

  /** The buffer plays no part in handling. */
  lemma {:induction false} HandlingIgnoresBuffer(s: Session, lines: seq<string>, buffer: string, read: string -> Message)
    ensures HandleAll(s.(buffer := buffer), lines, read) == HandleAll(s, lines, read).(buffer := buffer)
    ensures HandleAll(s, lines, read).buffer == s.buffer
    ensures HandleAll(s, lines, read).handled == s.handled + lines
  {
    if lines != [] {
      HandlingIgnoresBuffer(s, lines[..|lines| - 1], buffer, read);
      assert lines == lines[..|lines| - 1] + [lines[|lines| - 1]];
    }
  }

  lemma HandleFirst(s: Session, line: string, more: seq<string>, tail: string, buffer: string, read: string -> Message)
    ensures HandleAll(s, [line] + more, read).(buffer := buffer)
      == HandleAll(HandleLine(s.(buffer := tail), line, read), more, read).(buffer := buffer)
  {
    HandleOne(s, line, read);
    HandleAllSplits(s, [line], more, read);
    var first := HandleLine(s, line, read);
    assert HandleLine(s.(buffer := tail), line, read) == first.(buffer := tail);
    HandlingIgnoresBuffer(first, more, tail, read);
  }

  lemma LinesStep(t: string, line: string, tail: string)
    requires Newline(t) < |t| && line == t[..Newline(t)] && tail == t[Newline(t) + 1..]
    ensures Lines(t) == [line] + Lines(tail)
    ensures Rest(t) == Rest(tail)
  {
  }

  /** One turn of the loop: the first line is handled, and the loop goes on unless it throws. */
  lemma DrainStep(s: Session, read: string -> Message) returns (line: string, after: Session)
    requires Newline(s.buffer) < |s.buffer|
    ensures |after.buffer| < |s.buffer|
    ensures Lines(s.buffer) == [line] + Lines(after.buffer) && Rest(s.buffer) == Rest(after.buffer)
    ensures after == HandleLine(s.(buffer := after.buffer), line, read)
    ensures after.handled == s.handled + [line]
    ensures Throws(line, read) ==> Drain(s, read) == (after, true)
    ensures !Throws(line, read) ==> Drain(s, read) == Drain(after, read)
  {
    var i := Newline(s.buffer);
    line := s.buffer[..i];
    after := HandleLine(s.(buffer := s.buffer[i + 1..]), line, read);
    LinesStep(s.buffer, line, s.buffer[i + 1..]);
    DrainUnfolds(s, line, s.buffer[i + 1..], read);
  }

  lemma DrainUnfolds(s: Session, line: string, tail: string, read: string -> Message)
    requires Newline(s.buffer) < |s.buffer|
    requires line == s.buffer[..Newline(s.buffer)] && tail == s.buffer[Newline(s.buffer) + 1..]
    ensures var after := HandleLine(s.(buffer := tail), line, read);
      Drain(s, read) == if Throws(line, read) then (after, true) else Drain(after, read)
  {
  }

  lemma QuietTail(line: string, more: seq<string>, read: string -> Message)
    requires QuietButLast([line] + more, read)
    ensures QuietButLast(more, read)
    ensures more == [] || !Throws(line, read)
  {
    var lines := [line] + more;
    assert forall j :: 0 <= j < |more| ==> more[j] == lines[j + 1];
    assert lines[0] == line;
  }

  /** When only the last line may throw, draining handles every complete line. */
  lemma {:induction false} QuietDrain(s: Session, read: string -> Message)
    requires QuietButLast(Lines(s.buffer), read)
    ensures Drain(s, read).0 == HandleAll(s, Lines(s.buffer), read).(buffer := Rest(s.buffer))
    decreases |s.buffer|
  {
    if Newline(s.buffer) < |s.buffer| {
      var line, after := DrainStep(s, read);
      var tail := after.buffer;
      QuietTail(line, Lines(tail), read);
      HandleFirst(s, line, Lines(tail), tail, Rest(tail), read);
      if Throws(line, read) {
        NoLineIsRest(tail);
      } else {
        QuietDrain(after, read);
      }
    }
  }

  /** The first line that throws. */
  predicate FirstThrows(lines: seq<string>, k: nat, read: string -> Message) {
    k < |lines| && Throws(lines[k], read) && forall j :: 0 <= j < k ==> !Throws(lines[j], read)
  }

  lemma FirstInTail(line: string, more: seq<string>, k: nat, read: string -> Message)
    requires FirstThrows([line] + more, k, read)
    ensures Throws(line, read) <==> k == 0
    ensures k > 0 ==> FirstThrows(more, k - 1, read)
  {
    var lines := [line] + more;
    assert lines[0] == line;
    assert forall j :: 0 <= j < |more| ==> more[j] == lines[j + 1];
  }

  /** The lines up to one of them are handled, and the rest is still in the buffer. */
  predicate StoppedAt(handled: seq<string>, t: Session, lines: seq<string>, k: nat) {
    k < |lines| && t.handled == handled + lines[..k + 1] && Lines(t.buffer) == lines[k + 1..]
  }

  lemma StoppedLater(handled: seq<string>, t: Session, line: string, more: seq<string>, k: nat)
    requires StoppedAt(handled + [line], t, more, k)
    ensures StoppedAt(handled, t, [line] + more, k + 1)
  {
    var lines := [line] + more;
    assert lines[..k + 2] == [line] + more[..k + 1] && lines[k + 2..] == more[k + 1..];
    assert handled + ([line] + more[..k + 1]) == (handled + [line]) + more[..k + 1];
  }

  lemma StoppedHere(handled: seq<string>, t: Session, line: string, more: seq<string>)
    requires t.handled == handled + [line] && Lines(t.buffer) == more
    ensures StoppedAt(handled, t, [line] + more, 0)
  {
    assert ([line] + more)[..1] == [line] && ([line] + more)[1..] == more;
  }

  /** The loop stops at the first line that throws, and leaves the lines behind it in the buffer. */
  lemma {:induction false} DrainStopsAtFirst(s: Session, k: nat, read: string -> Message)
    requires FirstThrows(Lines(s.buffer), k, read)
    ensures Drain(s, read).1 && StoppedAt(s.handled, Drain(s, read).0, Lines(s.buffer), k)
    decreases |s.buffer|
  {
    var line, after := DrainStep(s, read);
    var lines, more, t := Lines(s.buffer), Lines(after.buffer), Drain(s, read);
    assert lines == [line] + more && after.handled == s.handled + [line];
    FirstInTail(line, more, k, read);
    if k > 0 {
      assert t == Drain(after, read);
      DrainStopsAtFirst(after, k - 1, read);
      StoppedLater(s.handled, t.0, line, more, k - 1);
    } else {
      assert t == (after, true);
      StoppedHere(s.handled, after, line, more);
    }
  }

  /** And it goes through to the end exactly when no line throws. */
  lemma {:induction false} DrainGoesThrough(s: Session, read: string -> Message)
    ensures Drain(s, read).1 <==> exists line :: line in Lines(s.buffer) && Throws(line, read)
    ensures Rest(Drain(s, read).0.buffer) == Rest(s.buffer)
    decreases |s.buffer|
  {
    if Newline(s.buffer) < |s.buffer| {
      var line, after := DrainStep(s, read);
      assert Lines(s.buffer) == [line] + Lines(after.buffer);
      DrainGoesThrough(after, read);
    } else {
      NoLineYet(s.buffer);
    }
  }

  lemma NoLineIsRest(t: string)
    requires Lines(t) == []
    ensures Rest(t) == t
  {}

  lemma TargetOfNothing(s: Session, read: string -> Message)
    requires s.buffer == ""
    ensures Target(s, "", read) == s
  {
    assert Newline("") == 0 && Lines("") == [] && Rest("") == "";
  }

  lemma ReceiveContinues(s: Session, text: string, chunk: string, read: string -> Message)
    requires s.buffer == "" && QuietButLast(Lines(Rest(text) + chunk), read)
    ensures Receive(Target(s, text, read), chunk, read) == Target(s, text + chunk, read)
  {
    var mid := Target(s, text, read);
    var full := mid.(buffer := Rest(text) + chunk);
    QuietDrain(full, read);
    LinesAppend(text, chunk);
    var more := Lines(Rest(text) + chunk);
    HandleAllSplits(s, Lines(text), more, read);
    HandlingIgnoresBuffer(HandleAll(s, Lines(text), read), more, full.buffer, read);
  }

  /** While only the last line may throw, the session depends only on the text received. */
  lemma {:induction false} FeedReachesTarget(s: Session, chunks: seq<string>, read: string -> Message)
    requires s.buffer == "" && QuietButLast(Lines(Concat(chunks)), read)
    ensures Feed(s, chunks, read) == Target(s, Concat(chunks), read)
  {
    if chunks == [] {
      TargetOfNothing(s, read);
    } else {
      var front, chunk := chunks[..|chunks| - 1], chunks[|chunks| - 1];
      var text := Concat(front);
      LinesAppend(text, chunk);
      var first, more := Lines(text), Lines(Rest(text) + chunk);
      assert forall i :: 0 <= i < |first| ==> first[i] == (first + more)[i];
      assert forall i :: 0 <= i < |more| ==> more[i] == (first + more)[|first| + i];
      FeedReachesTarget(s, front, read);
      ReceiveContinues(s, text, chunk, read);
    }
  }

  /** The text, one character at a time. */
  function Characters(text: string): seq<string> {
    seq(|text|, i requires 0 <= i < |text| => [text[i]])
  }

  lemma {:induction false} CharactersConcat(text: string)
    ensures Concat(Characters(text)) == text
  {
    if text != "" {
      var n := |text| - 1;
      assert Characters(text)[..n] == Characters(text[..n]);
      CharactersConcat(text[..n]);
    }
  }

  /** Fed one character at a time the session handles every line, whatever it holds. */
  lemma {:induction false} CharactersReachTarget(s: Session, text: string, read: string -> Message)
    requires s.buffer == ""
    ensures Feed(s, Characters(text), read) == Target(s, text, read)
  {
    if text == "" {
      TargetOfNothing(s, read);
    } else {
      var n := |text| - 1;
      var front, c := text[..n], text[n];
      assert front + [c] == text;
      CharactersReachTarget(s, front, read);
      LastCharacterFed(s, text, read);
      TargetContinues(s, front, c, read);
    }
  }

  lemma LastCharacterFed(s: Session, text: string, read: string -> Message)
    requires text != ""
    ensures var n := |text| - 1;
      Feed(s, Characters(text), read) == Receive(Feed(s, Characters(text[..n]), read), [text[n]], read)
  {
    var n := |text| - 1;
    assert Characters(text)[..n] == Characters(text[..n]);
  }

  lemma TargetContinues(s: Session, front: string, c: char, read: string -> Message)
    requires s.buffer == ""
    ensures Receive(Target(s, front, read), [c], read) == Target(s, front + [c], read)
  {
    RestHasNoLine(front);
    OneCharacterOneLine(Rest(front), c);
    ReceiveContinues(s, front, [c], read);
  }

  lemma OneCharacterOneLine(rest: string, c: char)
    requires Newline(rest) == |rest|
    ensures |Lines(rest + [c])| <= 1
  {
    NewlineAppend(rest, [c]);
    if c == '\n' {
      assert Newline([c]) == 0;
      assert (rest + [c])[|rest| + 1..] == "";
      assert Lines("") == [];
    } else {
      assert [c][1..] == "" && Newline([c]) == 1;
    }
  }

  /** Draining stops at the first line that throws, and leaves the later lines in the buffer. */
  lemma {:induction false} LoudDrain(s: Session, read: string -> Message)
    requires !QuietButLast(Lines(s.buffer), read)
    ensures |Drain(s, read).0.handled| < |s.handled| + |Lines(s.buffer)|
    decreases |s.buffer|
  {
    var line, after := DrainStep(s, read);
    LoudTail(line, Lines(after.buffer), read);
    if !Throws(line, read) {
      LoudDrain(after, read);
    }
  }

  lemma LoudTail(line: string, more: seq<string>, read: string -> Message)
    requires !QuietButLast([line] + more, read)
    ensures more != [] && (Throws(line, read) || !QuietButLast(more, read))
  {
    var lines := [line] + more;
    var k :| 0 <= k < |lines| - 1 && Throws(lines[k], read);
    if k > 0 { assert more[k - 1] == lines[k]; }
  }

  /** All ways of cutting a text into chunks leave the session in the same state. */
  ghost predicate ChunkingIsInvisible(s: Session, text: string, read: string -> Message) {
    forall a, b :: Concat(a) == text && Concat(b) == text ==> Feed(s, a, read) == Feed(s, b, read)
  }

  /**
   * Within one child process the lines handled, the answers given and the leftover buffer
   * depend only on the text received, if and only if no line before the last one is a bare
   * `null`.
   */
  lemma FramingIgnoresChunking(s: Session, text: string, read: string -> Message)
    requires s.buffer == ""
    ensures ChunkingIsInvisible(s, text, read) <==> QuietButLast(Lines(text), read)
  {
    if QuietButLast(Lines(text), read) {
      forall a, b | Concat(a) == text && Concat(b) == text ensures Feed(s, a, read) == Feed(s, b, read) {
        FeedReachesTarget(s, a, read);
        FeedReachesTarget(s, b, read);
      }
    } else {
      LoudTextShows(s, text, read);
      FeedOnce(s, text, read);
      CharactersConcat(text);
    }
  }

  /** Received at once, a text with an early `null` handles fewer lines than character by character. */
  lemma LoudTextShows(s: Session, text: string, read: string -> Message)
    requires s.buffer == "" && !QuietButLast(Lines(text), read)
    ensures |Feed(s, [text], read).handled| < |Feed(s, Characters(text), read).handled|
  {
    assert s.buffer + text == text;
    FeedOnce(s, text, read);
    LoudDrain(s.(buffer := text), read);
    CharactersReachTarget(s, text, read);
    HandlingIgnoresBuffer(s, Lines(text), Rest(text), read);
  }

  lemma FeedOnce(s: Session, text: string, read: string -> Message)
    ensures Concat([text]) == text && Feed(s, [text], read) == Receive(s, text, read)
  {
    assert [text][..0] == [];
    assert Feed(s, [], read) == s && Concat([]) == "";
  }

  /** And then the state is the one that handling the lines of the text in order gives. */
  lemma FramingIsLineByLine(s: Session, chunks: seq<string>, read: string -> Message)
    requires s.buffer == "" && QuietButLast(Lines(Concat(chunks)), read)
    ensures var after, text := Feed(s, chunks, read), Concat(chunks);
      && after.handled == s.handled + Lines(text)
      && after.buffer == Rest(text)
      && after.settled == HandleAll(s, Lines(text), read).settled
  {
    FeedReachesTarget(s, chunks, read);
    HandlingIgnoresBuffer(s, Lines(Concat(chunks)), "", read);
  }

  // ---------------------------------------------------------------- requests

  datatype Step =
    | Request(spawns: bool, hasStdin: bool, writes: bool)
    | Chunk(data: string)
    | Timeout(id: int)
    | Exit
    | Error
    | Stop

  /** A request takes the next id; it waits unless it cannot be written. A failed spawn takes no id. */
  function Ask(s: Session, spawns: bool, hasStdin: bool, writes: bool): Session {
    if !s.running && !spawns then s
    else
      var id := s.nextId;
      var asked := s.(running := true, nextId := id + 1);
      if !hasStdin then asked.(settled := s.settled + [Settlement(id, NotRunning)])
      else if !writes then asked.(settled := s.settled + [Settlement(id, WriteFailed)])
      else asked.(pending := s.pending + [id])
  }

  function TellAll(ids: seq<int>, ending: Ending): seq<Settlement> {
    seq(|ids|, i requires 0 <= i < |ids| => Settlement(ids[i], ending))
  }

  function EndAll(s: Session, ending: Ending): Session {
    s.(running := false, pending := [], settled := s.settled + TellAll(s.pending, ending))
  }

  function Take(s: Session, step: Step, read: string -> Message): Session {
    match step
    case Request(spawns, hasStdin, writes) => Ask(s, spawns, hasStdin, writes)
    case Chunk(data) => Receive(s, data, read)
    case Timeout(id) => if id in s.pending then Settle(s, id, TimedOut) else s
    case Exit => EndAll(s, Exited)
    case Error => EndAll(s, Failed)
    case Stop => s.(running := false)
  }

  function Reached(steps: seq<Step>, read: string -> Message): Session {
    if steps == [] then FRESH else Take(Reached(steps[..|steps| - 1], read), steps[|steps| - 1], read)
  }

  predicate Waiting(s: Session, id: int) {
    id in s.pending
  }

  predicate Told(s: Session, id: int) {
    exists i :: 0 <= i < |s.settled| && s.settled[i].id == id
  }

  /** Every id given out is waiting or has been told once, never both, and a response carries its id. */
  ghost predicate Accounted(s: Session, read: string -> Message) {
    && s.nextId >= 1
    && Ascending(s.pending)
    && (forall i, j :: 0 <= i < j < |s.settled| ==> s.settled[i].id != s.settled[j].id)
    && (forall id :: Waiting(s, id) || Told(s, id) <==> 1 <= id < s.nextId)
    && (forall id :: Waiting(s, id) ==> !Told(s, id))
    && (forall i :: 0 <= i < |s.settled| && s.settled[i].ending.Response? ==>
          read(s.settled[i].ending.line) == WithId(s.settled[i].id))
  }

  predicate Ascending(ids: seq<int>) {
    forall i, j :: 0 <= i < j < |ids| ==> ids[i] < ids[j]
  }

  lemma HeadIsLeast(ids: seq<int>)
    requires ids != [] && Ascending(ids)
    ensures Ascending(ids[1..])
    ensures forall x :: x in ids[1..] ==> ids[0] < x
    ensures forall x :: x in ids <==> x == ids[0] || x in ids[1..]
  {
    assert ids == [ids[0]] + ids[1..];
  }

  lemma Prefixed(id: int, rest: seq<int>)
    requires Ascending(rest) && forall x :: x in rest ==> id < x
    ensures Ascending([id] + rest)
    ensures forall x :: x in [id] + rest <==> x == id || x in rest
  {
    forall i | 0 <= i < |rest| ensures id < rest[i] {
      assert rest[i] in rest;
    }
  }

  lemma {:induction false} WithoutKeepsOrder(ids: seq<int>, id: int)
    requires id in ids && Ascending(ids)
    ensures Ascending(Without(ids, id))
    ensures forall x :: x in Without(ids, id) <==> x in ids && x != id
  {
    HeadIsLeast(ids);
    if ids[0] != id {
      WithoutKeepsOrder(ids[1..], id);
      Prefixed(ids[0], Without(ids[1..], id));
    }
  }

  lemma ToldGrows(s: Session, t: Session, m: Settlement, id: int)
    requires t.settled == s.settled + [m]
    ensures Told(t, id) <==> Told(s, id) || id == m.id
  {
    if Told(s, id) {
      var i :| 0 <= i < |s.settled| && s.settled[i].id == id;
      assert t.settled[i].id == id;
    }
    assert t.settled[|s.settled|] == m;
  }

  lemma NotTold(s: Session, id: int)
    requires !Told(s, id)
    ensures forall i :: 0 <= i < |s.settled| ==> s.settled[i].id != id
  {}

  lemma SettleKeepsAccount(s: Session, id: int, ending: Ending, read: string -> Message)
    requires Accounted(s, read) && id in s.pending
    requires ending.Response? ==> read(ending.line) == WithId(id)
    ensures Accounted(Settle(s, id, ending), read)
  {
    var t := Settle(s, id, ending);
    WithoutKeepsOrder(s.pending, id);
    assert Waiting(s, id);
    NotTold(s, id);
    forall x ensures Told(t, x) <==> Told(s, x) || x == id {
      ToldGrows(s, t, Settlement(id, ending), x);
    }
    forall x ensures Waiting(t, x) <==> Waiting(s, x) && x != id {}
  }

  lemma HandleKeepsAccount(s: Session, line: string, read: string -> Message)
    requires Accounted(s, read)
    ensures Accounted(HandleLine(s, line, read), read)
  {
    var t := s.(handled := s.handled + [line]);
    SameAccount(s, t, read);
    if read(line).WithId? && read(line).id in s.pending {
      SettleKeepsAccount(t, read(line).id, Response(line), read);
    }
  }

  lemma SameAccount(s: Session, t: Session, read: string -> Message)
    requires Accounted(s, read) && t.pending == s.pending && t.settled == s.settled && t.nextId == s.nextId
    ensures Accounted(t, read)
  {
    forall id ensures Told(t, id) == Told(s, id) && Waiting(t, id) == Waiting(s, id) {}
  }

  lemma {:induction false} DrainKeepsAccount(s: Session, read: string -> Message)
    requires Accounted(s, read)
    ensures Accounted(Drain(s, read).0, read)
    decreases |s.buffer|
  {
    if Newline(s.buffer) < |s.buffer| {
      var line, after := DrainStep(s, read);
      SameAccount(s, s.(buffer := after.buffer), read);
      HandleKeepsAccount(s.(buffer := after.buffer), line, read);
      if !Throws(line, read) { DrainKeepsAccount(after, read); }
    }
  }

  lemma AskKeepsAccount(s: Session, spawns: bool, hasStdin: bool, writes: bool, read: string -> Message)
    requires Accounted(s, read)
    ensures Accounted(Ask(s, spawns, hasStdin, writes), read)
  {
    var t := Ask(s, spawns, hasStdin, writes);
    assert !Waiting(s, s.nextId) && !Told(s, s.nextId);
    NotTold(s, s.nextId);
    if t.nextId != s.nextId {
      if t.pending == s.pending {
        forall id ensures Told(t, id) <==> Told(s, id) || id == s.nextId {
          ToldGrows(s, t, t.settled[|s.settled|], id);
        }
        forall id ensures Waiting(t, id) == Waiting(s, id) {}
      } else {
        forall id ensures Waiting(t, id) <==> Waiting(s, id) || id == s.nextId {}
        forall id ensures Told(t, id) == Told(s, id) {}
        forall i | 0 <= i < |s.pending| ensures s.pending[i] < s.nextId {
          assert Waiting(s, s.pending[i]);
        }
      }
    } else {
      SameAccount(s, t, read);
    }
  }

  lemma EndAllKeepsAccount(s: Session, ending: Ending, read: string -> Message)
    requires Accounted(s, read) && !ending.Response?
    ensures Accounted(EndAll(s, ending), read)
  {
    var t := EndAll(s, ending);
    var n := |s.settled|;
    forall id ensures Told(t, id) <==> Told(s, id) || Waiting(s, id) {
      if Waiting(s, id) {
        var i :| 0 <= i < |s.pending| && s.pending[i] == id;
        assert t.settled[n + i].id == id;
      }
      if Told(s, id) {
        var i :| 0 <= i < n && s.settled[i].id == id;
        assert t.settled[i].id == id;
      }
    }
    forall i, j | 0 <= i < j < |t.settled| ensures t.settled[i].id != t.settled[j].id {
      if i < n <= j {
        assert Told(s, s.settled[i].id) && Waiting(s, s.pending[j - n]);
      }
    }
  }

  /** Every step keeps the account. */
  lemma StepKeepsAccount(s: Session, step: Step, read: string -> Message)
    requires Accounted(s, read)
    ensures Accounted(Take(s, step, read), read)
  {
    match step
    case Request(spawns, hasStdin, writes) => AskKeepsAccount(s, spawns, hasStdin, writes, read);
    case Chunk(data) =>
      SameAccount(s, s.(buffer := s.buffer + data), read);
      DrainKeepsAccount(s.(buffer := s.buffer + data), read);
    case Timeout(id) => if id in s.pending { SettleKeepsAccount(s, id, TimedOut, read); }
    case Exit => EndAllKeepsAccount(s, Exited, read);
    case Error => EndAllKeepsAccount(s, Failed, read);
    case Stop => SameAccount(s, s.(running := false), read);
  }

  /**
   * On every run of requests, chunks, timeouts, exits, errors and stops, each id given out is
   * either still waiting or has been told exactly once, and a response goes to the request
   * whose id it carries.
   */
  lemma {:induction false} EachRequestSettlesOnce(steps: seq<Step>, read: string -> Message)
    ensures Accounted(Reached(steps, read), read)
  {
    if steps != [] {
      EachRequestSettlesOnce(steps[..|steps| - 1], read);
      StepKeepsAccount(Reached(steps[..|steps| - 1], read), steps[|steps| - 1], read);
    }
  }

  /** After the child exits nobody waits, and every request ever made has been told. */
  lemma ExitLeavesNobodyWaiting(steps: seq<Step>, id: int, read: string -> Message)
    ensures var s := Take(Reached(steps, read), Exit, read);
      s.pending == [] && (Told(s, id) <==> 1 <= id < s.nextId)
  {
    EachRequestSettlesOnce(steps, read);
    EndAllKeepsAccount(Reached(steps, read), Exited, read);
    var s := Take(Reached(steps, read), Exit, read);
    assert !Waiting(s, id);
  }

  // ---------------------------------------------------------------- answers

  /** What the caller of an id has been told, in order. */
  function Endings(settled: seq<Settlement>, id: int): seq<Ending> {
    if settled == [] then []
    else
      var n := |settled| - 1;
      Endings(settled[..n], id) + if settled[n].id == id then [settled[n].ending] else []
  }

  lemma {:induction false} EndingsAppend(a: seq<Settlement>, b: seq<Settlement>, id: int)
    ensures Endings(a + b, id) == Endings(a, id) + Endings(b, id)
  {
    if b == [] {
      assert a + b == a;
    } else {
      var n := |b| - 1;
      assert (a + b)[..|a| + n] == a + b[..n];
      EndingsAppend(a, b[..n], id);
    }
  }

  lemma OneEnding(m: Settlement, id: int)
    ensures Endings([m], id) == if m.id == id then [m.ending] else []
  {
    assert [m][..0] == [];
  }

  /** A waiting id no longer waits and is told one thing more; every other id is as it was. */
  ghost predicate Tells(s: Session, t: Session, id: int, ending: Ending) {
    && Waiting(s, id)
    && (forall x :: Waiting(t, x) <==> Waiting(s, x) && x != id)
    && (forall x :: Endings(t.settled, x) == Endings(s.settled, x) + if x == id then [ending] else [])
  }

  ghost predicate TellsNobody(s: Session, t: Session) {
    t.pending == s.pending && t.settled == s.settled
  }

  lemma SettleTells(s: Session, id: int, ending: Ending)
    requires Ascending(s.pending) && Waiting(s, id)
    ensures Tells(s, Settle(s, id, ending), id, ending)
    ensures Ascending(Settle(s, id, ending).pending)
  {
    WithoutKeepsOrder(s.pending, id);
    forall x ensures Endings(Settle(s, id, ending).settled, x) == Endings(s.settled, x) + if x == id then [ending] else [] {
      EndingsAppend(s.settled, [Settlement(id, ending)], x);
      OneEnding(Settlement(id, ending), x);
    }
  }

  /** A line that carries the id of a waiting request is that request's answer; any other line tells nobody anything. */
  lemma ResponseSettles(s: Session, line: string, read: string -> Message)
    requires Ascending(s.pending)
    ensures var t, m := HandleLine(s, line, read), read(line);
      && (if m.WithId? && Waiting(s, m.id) then Tells(s, t, m.id, Response(line)) else TellsNobody(s, t))
      && Ascending(t.pending) && t.nextId == s.nextId && t.running == s.running
  {
    var m := read(line);
    if m.WithId? && Waiting(s, m.id) {
      SettleTells(s.(handled := s.handled + [line]), m.id, Response(line));
    }
  }

  /** Only a waiting request times out. */
  lemma TimeoutSettles(s: Session, id: int, read: string -> Message)
    requires Ascending(s.pending)
    ensures var t := Take(s, Timeout(id), read);
      if Waiting(s, id) then Tells(s, t, id, TimedOut) else t == s
  {
    if Waiting(s, id) { SettleTells(s, id, TimedOut); }
  }

  /** A line that carries an id, no earlier line carrying it. */
  predicate FirstCarries(lines: seq<string>, k: nat, id: int, read: string -> Message) {
    k < |lines| && read(lines[k]) == WithId(id) && forall j :: 0 <= j < k ==> read(lines[j]) != WithId(id)
  }

  /** Lines leave an id alone that does not wait or that none of them carries. */
  lemma {:induction false} LinesLeaveAlone(s: Session, lines: seq<string>, id: int, read: string -> Message)
    requires Ascending(s.pending)
    requires Waiting(s, id) ==> forall j :: 0 <= j < |lines| ==> read(lines[j]) != WithId(id)
    ensures var t := HandleAll(s, lines, read);
      && Ascending(t.pending) && (Waiting(t, id) <==> Waiting(s, id)) && Endings(t.settled, id) == Endings(s.settled, id)
  {
    if lines != [] {
      var n := |lines| - 1;
      LinesLeaveAlone(s, lines[..n], id, read);
      ResponseSettles(HandleAll(s, lines[..n], read), lines[n], read);
    }
  }

  lemma {:induction false} LinesKeepOrder(s: Session, lines: seq<string>, read: string -> Message)
    requires Ascending(s.pending)
    ensures Ascending(HandleAll(s, lines, read).pending)
  {
    if lines != [] {
      LinesKeepOrder(s, lines[..|lines| - 1], read);
      ResponseSettles(HandleAll(s, lines[..|lines| - 1], read), lines[|lines| - 1], read);
    }
  }

  /** The first line that carries a waiting id answers it, and no later one does. */
  lemma FirstCarrierAnswers(s: Session, lines: seq<string>, k: nat, id: int, read: string -> Message)
    requires Ascending(s.pending) && Waiting(s, id) && FirstCarries(lines, k, id, read)
    ensures var t := HandleAll(s, lines, read);
      !Waiting(t, id) && Endings(t.settled, id) == Endings(s.settled, id) + [Response(lines[k])]
  {
    var before, after := lines[..k], lines[k + 1..];
    assert lines == before + [lines[k]] + after;
    HandleAllSplits(s, before, [lines[k]], read);
    HandleAllSplits(s, before + [lines[k]], after, read);
    var first := HandleAll(s, before, read);
    HandleOne(first, lines[k], read);
    LinesLeaveAlone(s, before, id, read);
    ResponseSettles(first, lines[k], read);
    LinesLeaveAlone(HandleLine(first, lines[k], read), after, id, read);
  }

  predicate NobodyCarries(lines: seq<string>, id: int, read: string -> Message) {
    forall j :: 0 <= j < |lines| ==> read(lines[j]) != WithId(id)
  }

  /** An id that waits is told exactly when some line carries it, and is told the first such line; any other is told nothing. */
  ghost predicate FirstLineIsTold(s: Session, t: Session, lines: seq<string>, id: int, read: string -> Message) {
    && (Waiting(t, id) <==> Waiting(s, id) && NobodyCarries(lines, id, read))
    && (!Waiting(s, id) || NobodyCarries(lines, id, read) ==> Endings(t.settled, id) == Endings(s.settled, id))
    && (forall k: nat :: Waiting(s, id) && FirstCarries(lines, k, id, read) ==>
          Endings(t.settled, id) == Endings(s.settled, id) + [Response(lines[k])])
  }

  lemma {:induction false} SomebodyIsFirst(lines: seq<string>, id: int, read: string -> Message) returns (k: nat)
    requires !NobodyCarries(lines, id, read)
    ensures FirstCarries(lines, k, id, read)
  {
    var n := |lines| - 1;
    if NobodyCarries(lines[..n], id, read) {
      k := n;
    } else {
      k := SomebodyIsFirst(lines[..n], id, read);
    }
  }

  lemma LinesTell(s: Session, lines: seq<string>, id: int, read: string -> Message)
    requires Ascending(s.pending)
    ensures FirstLineIsTold(s, HandleAll(s, lines, read), lines, id, read)
  {
    if !Waiting(s, id) || NobodyCarries(lines, id, read) {
      LinesLeaveAlone(s, lines, id, read);
    } else {
      var k := SomebodyIsFirst(lines, id, read);
      FirstCarrierAnswers(s, lines, k, id, read);
    }
  }

  /** However a text without an early `null` arrives, each waiting request gets the first line of it that carries its id. */
  lemma FirstLineAnswers(s: Session, chunks: seq<string>, id: int, read: string -> Message)
    requires s.buffer == "" && Ascending(s.pending) && QuietButLast(Lines(Concat(chunks)), read)
    ensures FirstLineIsTold(s, Feed(s, chunks, read), Lines(Concat(chunks)), id, read)
  {
    var lines := Lines(Concat(chunks));
    FeedReachesTarget(s, chunks, read);
    LinesTell(s, lines, id, read);
  }

  /** The same for one chunk that continues what any run has left in the buffer. */
  lemma ChunkAnswers(steps: seq<Step>, chunk: string, id: int, read: string -> Message)
    requires QuietButLast(Lines(Reached(steps, read).buffer + chunk), read)
    ensures var s := Reached(steps, read);
      FirstLineIsTold(s, Take(s, Chunk(chunk), read), Lines(s.buffer + chunk), id, read)
  {
    var s := Reached(steps, read);
    EachRequestSettlesOnce(steps, read);
    var full := s.(buffer := s.buffer + chunk);
    QuietDrain(full, read);
    LinesTell(full, Lines(full.buffer), id, read);
  }

  /**
   * A request that can be made gets the next id. It waits exactly when its text is written; if
   * not, its caller alone is told, and why.
   */
  lemma RequestTells(s: Session, spawns: bool, hasStdin: bool, writes: bool, id: int)
    ensures var t := Ask(s, spawns, hasStdin, writes);
      if s.running || spawns then
        && t.running && t.nextId == s.nextId + 1
        && (Waiting(t, id) <==> Waiting(s, id) || (id == s.nextId && hasStdin && writes))
        && Endings(t.settled, id) == Endings(s.settled, id)
             + (if id != s.nextId || (hasStdin && writes) then [] else if hasStdin then [WriteFailed] else [NotRunning])
      else t == s
  {
    var t := Ask(s, spawns, hasStdin, writes);
    if t.settled != s.settled {
      EndingsAppend(s.settled, [t.settled[|s.settled|]], id);
      OneEnding(t.settled[|s.settled|], id);
    }
  }

  lemma {:induction false} EndingsOfAll(ids: seq<int>, ending: Ending, id: int)
    requires Ascending(ids)
    ensures Endings(TellAll(ids, ending), id) == if id in ids then [ending] else []
  {
    if ids != [] {
      var n := |ids| - 1;
      assert TellAll(ids, ending)[..n] == TellAll(ids[..n], ending);
      EndingsOfAll(ids[..n], ending, id);
      assert ids == ids[..n] + [ids[n]];
    }
  }

  /** When the child is gone, each waiting request is told so once, and nobody else is. */
  lemma EndingTells(s: Session, ending: Ending, id: int)
    requires Ascending(s.pending)
    ensures var t := EndAll(s, ending);
      && !t.running && !Waiting(t, id) && t.nextId == s.nextId
      && Endings(t.settled, id) == Endings(s.settled, id) + if Waiting(s, id) then [ending] else []
  {
    EndingsAppend(s.settled, TellAll(s.pending, ending), id);
    EndingsOfAll(s.pending, ending, id);
  }

  /** A line of white space says nothing; any other is parsed without the white space around it. */
  lemma ReaderIsExact(parse: string -> Message, before: string, line: string, after: string)
    requires AllSpace(before) && AllSpace(after)
    requires line != "" ==> !IsSpace(line[0]) && !IsSpace(line[|line| - 1])
    ensures Reader(parse)(before + line + after) == if line == "" then Invalid else parse(line)
  {
    TrimIsUnique(before, line, after);
  }

  // ---------------------------------------------------------------- the session object

  class AppServer {
    var running: bool
    var buffer: string
    var pending: seq<int>
    var nextId: int
    var settled: seq<Settlement>
    var handled: seq<string>
    const parse: string -> Message

    function State(): Session
      reads this
    {
      Session(running, buffer, pending, nextId, settled, handled)
    }

    constructor (parse: string -> Message)
      ensures State() == FRESH && this.parse == parse
    {
      running, buffer, pending, nextId, settled, handled := false, "", [], 1, [], [];
      this.parse := parse;
    }

    method IndexOfNewline() returns (index: int)
      ensures index == if Newline(buffer) < |buffer| then Newline(buffer) else -1
    {
      var i: nat := 0;
      assert buffer[0..] == buffer;
      while i < |buffer| && buffer[i] != '\n'
        invariant i <= |buffer| && Newline(buffer) == i + Newline(buffer[i..])
      {
        assert buffer[i..][1..] == buffer[i + 1..];
        i := i + 1;
      }
      index := if i < |buffer| then i else -1;
    }

    /** Handles one line; `threw` tells that it was a bare `null`. */
    method Handle(line: string) returns (threw: bool)
      modifies this`pending, this`settled, this`handled
      ensures State() == HandleLine(old(State()), line, Reader(parse))
      ensures threw == Throws(line, Reader(parse))
    {
      handled := handled + [line];
      var text := Trim(line);
      if text == "" {
        return false;
      }
      var payload := parse(text);
      if payload.Null? {
        return true;
      }
      if payload.WithId? && payload.id in pending {
        pending := Without(pending, payload.id);
        settled := settled + [Settlement(payload.id, Response(line))];
      }
      return false;
    }

    /** Appends a chunk and handles the complete lines; `threw` tells that a line stopped the loop. */
    method OnData(chunk: string) returns (threw: bool)
      modifies this
      ensures (State(), threw) == Drain(old(State()).(buffer := old(buffer) + chunk), Reader(parse))
    {
      buffer := buffer + chunk;
      ghost var goal := Drain(State(), Reader(parse));
      var index := IndexOfNewline();
      while index != -1
        invariant index == if Newline(buffer) < |buffer| then Newline(buffer) else -1
        invariant Drain(State(), Reader(parse)) == goal
        decreases |buffer|
      {
        var line := buffer[..index];
        DrainUnfolds(State(), line, buffer[index + 1..], Reader(parse));
        buffer := buffer[index + 1..];
        threw := Handle(line);
        if threw {
          return;
        }
        index := IndexOfNewline();
      }
      return false;
    }

    method Request(spawns: bool, hasStdin: bool, writes: bool)
      modifies this
      ensures State() == Ask(old(State()), spawns, hasStdin, writes)
    {
      if !running {
        if !spawns {
          return;
        }
        running := true;
      }
      var id := nextId;
      nextId := nextId + 1;
      pending := pending + [id];
      if !hasStdin || !writes {
        pending := pending[..|pending| - 1];
        settled := settled + [Settlement(id, if !hasStdin then NotRunning else WriteFailed)];
      }
    }

    /** The timer of a request; answering a request clears its timer. */
    method OnTimeout(id: int)
      modifies this
      ensures State() == Take(old(State()), Timeout(id), Reader(parse))
    {
      if id in pending {
        pending := Without(pending, id);
        settled := settled + [Settlement(id, TimedOut)];
      }
    }

    /** The child exited or failed: every waiting request is rejected. */
    method RejectAll(ending: Ending)
      modifies this
      ensures State() == EndAll(old(State()), ending)
    {
      var waiting := pending;
      ghost var before := settled;
      for i := 0 to |waiting|
        invariant settled == before + TellAll(waiting[..i], ending)
        invariant State() == old(State()).(settled := settled)
      {
        settled := settled + [Settlement(waiting[i], ending)];
      }
      assert waiting[..|waiting|] == waiting;
      pending := [];
      running := false;
    }

    method Stop()
      modifies this
      ensures State() == old(State()).(running := false)
    {
      running := false;
    }
  }
}
