/**
 The streamed reply of POST /infer: orchestrator/http_api.py, _run_inference_stream, writes one JSON
 record per line, and dashboard/lib/api.ts, runInferenceStream, reads the lines back from chunks cut
 anywhere.  JSON itself is a parameter: an encoding whose records are one-line objects.
 */
module Ndjson {
  import opened Wrappers

  /** A record as the writer makes it and as the reader sees it. */
  datatype Record<+R> = Token(text: string) | Failed(error: string) | Final(result: R)

  datatype Codec<!R> = Codec(dumps: Record<R> -> string, parse: string -> Option<Record<R>>)

  /** What the reader throws: the emitted error, JSON's SyntaxError, or that nothing final came. */
  datatype Thrown = Emitted(message: string) | SyntaxError | NoFinalResult

  /** The reader's finalResult: taken from a final record, or with every field undefined. */
  datatype InferResult<+R> = Fields(result: R) | Undefined

  datatype ReaderState<+R> = Reader(tokens: seq<string>, final: Option<InferResult<R>>, thrown: Option<Thrown>)

  // ---------- Lines ----------

  /** JavaScript's white space and line terminators, which trim() strips. */
  predicate IsSpace(c: char) {
    || c == ' ' || c == '\t' || c == '\n' || c == '\r' || c == '\U{000B}' || c == '\U{000C}' || c == '\U{00A0}'
    || c == '\U{FEFF}' || c == '\U{1680}' || '\U{2000}' <= c <= '\U{200A}' || c == '\U{2028}' || c == '\U{2029}'
    || c == '\U{202F}' || c == '\U{205F}' || c == '\U{3000}'
  }

  function Trim(s: string): string
    decreases |s|
  {
    if s == [] then []
    else if IsSpace(s[0]) then Trim(s[1..])
    else if IsSpace(s[|s| - 1]) then Trim(s[..|s| - 1])
    else s
  }

  lemma {:induction false} Regroup<T>(x: seq<T>, y: seq<T>, z: seq<T>)
    ensures (x + y) + z == x + (y + z)
  {
  }

  ghost predicate AllSpace(s: string) {
    forall k :: 0 <= k < |s| ==> IsSpace(s[k])
  }

  lemma {:induction false} TrimmedEnds(s: string)
    ensures Trim(s) != "" ==> !IsSpace(Trim(s)[0]) && !IsSpace(Trim(s)[|Trim(s)| - 1])
    decreases |s|
  {
    hide IsSpace;
    if s != "" && IsSpace(s[0]) {
      TrimmedEnds(s[1..]);
    } else if s != "" && IsSpace(s[|s| - 1]) {
      TrimmedEnds(s[..|s| - 1]);
    }
  }

  /** Trimming takes white space off both ends, all of it and nothing else. */
  lemma {:induction false} TrimExactly(s: string) returns (before: string, after: string)
    ensures s == before + Trim(s) + after && AllSpace(before) && AllSpace(after)
    ensures Trim(s) != "" ==> !IsSpace(Trim(s)[0]) && !IsSpace(Trim(s)[|Trim(s)| - 1])
  {
    hide Trim, IsSpace, AllSpace;
    TrimmedEnds(s);
    before, after := TrimmedOff(s);
  }

  lemma {:induction false} TrimmedOff(s: string) returns (before: string, after: string)
    ensures s == before + Trim(s) + after && AllSpace(before) && AllSpace(after)
    decreases |s|
  {
    hide IsSpace, AllSpace;
    before, after := "", "";
    OneMoreSpace("", ' ');
    if s != "" && IsSpace(s[0]) {
      var b, a := TrimmedOff(s[1..]);
      var text := Trim(s[1..]);
      assert Trim(s) == text && s == [s[0]] + s[1..];
      hide Trim;
      OneMoreSpace(b, s[0]);
      Prepended(s[0], b, text, a);
      return [s[0]] + b, a;
    } else if s != "" && IsSpace(s[|s| - 1]) {
      var n := |s| - 1;
      var b, a := TrimmedOff(s[..n]);
      var text := Trim(s[..n]);
      assert Trim(s) == text && s == s[..n] + [s[n]];
      hide Trim;
      OneMoreSpace(a, s[n]);
      Regroup(b + text, a, [s[n]]);
      return b, a + [s[n]];
    }
  }

  lemma {:induction false} OneMoreSpace(s: string, c: char)
    ensures AllSpace(s) && IsSpace(c) ==> AllSpace([c] + s) && AllSpace(s + [c])
    ensures AllSpace("")
  {
    hide IsSpace;
  }

  lemma {:induction false} Prepended<T>(x: T, a: seq<T>, b: seq<T>, c: seq<T>)
    ensures [x] + (a + b + c) == ([x] + a) + b + c
  {
  }

  /** Where the first newline is, or the length when there is none. */
  function NewlineAt(s: string): (k: nat)
    ensures k <= |s| && (k < |s| ==> s[k] == '\n') && forall i :: 0 <= i < k ==> s[i] != '\n'
  {
    if s == [] || s[0] == '\n' then 0 else 1 + NewlineAt(s[1..])
  }

  /** The lines of a text that a newline has ended. */
  function Lines(s: string): seq<string>
    decreases |s|
  {
    var k := NewlineAt(s);
    if k == |s| then [] else [s[..k]] + Lines(s[k + 1..])
  }

  /** What follows the last newline. */
  function Rest(s: string): string
    decreases |s|
  {
    var k := NewlineAt(s);
    if k == |s| then s else Rest(s[k + 1..])
  }

  lemma {:induction false} FirstLine(s: string, line: string, after: string)
    requires s == line + "\n" + after && '\n' !in line
    ensures Lines(s) == [line] + Lines(after) && Rest(s) == Rest(after)
  {
    assert s[|line|] == '\n' && forall i :: 0 <= i < |line| ==> s[i] == line[i] && line[i] in line;
    assert NewlineAt(s) == |line|;
    assert s[..|line|] == line && s[|line| + 1..] == after;
  }

  /** Text may be cut anywhere: the lines of the whole are those of the first part, then those of
      what is left of it with the second part behind. */
  lemma {:induction false} LinesOfParts(a: string, b: string)
    ensures Lines(a + b) == Lines(a) + Lines(Rest(a) + b)
    ensures Rest(a + b) == Rest(Rest(a) + b)
    decreases |a|
  {
    var k := NewlineAt(a);
    if k < |a| {
      var line, after := a[..k], a[k + 1..];
      assert a == line + "\n" + after;
      Regroup(line + "\n", after, b);
      FirstLine(a, line, after);
      FirstLine(a + b, line, after + b);
      LinesOfParts(after, b);
      Regroup([line], Lines(after), Lines(Rest(after) + b));
    } else {
      assert Lines(a) == [] && Rest(a) == a;
    }
  }

  // ---------- The reader as a fold over lines ----------

  /** One line: skipped when blank; a record otherwise.  An error record with an empty message is
      taken for a final one, since the reader asks whether chunk.error is truthy. */
  function OnLine<R>(c: Codec<R>, st: ReaderState<R>, line: string): ReaderState<R> {
    var text := Trim(line);
    if st.thrown.Some? || text == "" then st
    else match c.parse(text)
      case None => st.(thrown := Some(SyntaxError))
      case Some(Token(t)) => st.(tokens := st.tokens + [t])
      case Some(Failed(e)) => if e != "" then st.(thrown := Some(Emitted(e))) else st.(final := Some(Undefined))
      case Some(Final(r)) => st.(final := Some(Fields(r)))
  }

  function OnLines<R>(c: Codec<R>, st: ReaderState<R>, lines: seq<string>): ReaderState<R>
    decreases |lines|
  {
    if lines == [] then st else OnLines(c, OnLine(c, st, lines[0]), lines[1..])
  }

  function Outcome<R>(st: ReaderState<R>): Result<InferResult<R>, Thrown> {
    if st.thrown.Some? then Err(st.thrown.value)
    else if st.final.Some? then Ok(st.final.value)
    else Err(NoFinalResult)
  }

  function Blank<R>(): ReaderState<R> {
    Reader([], None, None)
  }

  lemma {:induction false} OnLinesAppend<R>(c: Codec<R>, st: ReaderState<R>, a: seq<string>, b: seq<string>)
    ensures OnLines(c, st, a + b) == OnLines(c, OnLines(c, st, a), b)
    decreases |a|
  {
    if a == [] {
      assert a + b == b;
    } else {
      assert (a + b)[1..] == a[1..] + b;
      OnLinesAppend(c, OnLine(c, st, a[0]), a[1..], b);
    }
  }

  lemma {:induction false} ThrownStays<R>(c: Codec<R>, st: ReaderState<R>, lines: seq<string>)
    requires st.thrown.Some?
    ensures OnLines(c, st, lines) == st
    decreases |lines|
  {
    if lines != [] {
      ThrownStays(c, st, lines[1..]);
    }
  }

  function Concat(chunks: seq<string>): string {
    if chunks == [] then "" else Concat(chunks[..|chunks| - 1]) + chunks[|chunks| - 1]
  }

  /** What reading a whole text comes to. */
  function ReadText<R>(c: Codec<R>, text: string): ReaderState<R> {
    OnLines(c, Blank(), Lines(text))
  }

  // ---------- The reader ----------

  /** The inner loop: take complete lines off the buffer. */
  method DrainBuffer<R>(c: Codec<R>, st0: ReaderState<R>, buffer0: string) returns (st: ReaderState<R>, buffer: string)
    requires st0.thrown.None?
    ensures st == OnLines(c, st0, Lines(buffer0))
    ensures st.thrown.None? ==> buffer == Rest(buffer0)
  {
    hide Trim, IsSpace;
    st, buffer := st0, buffer0;
    var newlineIndex := NewlineAt(buffer);
    while newlineIndex < |buffer|
      invariant newlineIndex == NewlineAt(buffer) && st.thrown.None?
      invariant OnLines(c, st, Lines(buffer)) == OnLines(c, st0, Lines(buffer0))
      invariant Rest(buffer) == Rest(buffer0)
      decreases |buffer|
    {
      var raw := buffer[..newlineIndex];
      var line := Trim(raw);
      ghost var lines := Lines(buffer);
      buffer := buffer[newlineIndex + 1..];
      newlineIndex := NewlineAt(buffer);
      assert lines[0] == raw && lines[1..] == Lines(buffer);
      if line == "" {
        continue;
      }
      var chunk := c.parse(line);
      match chunk {
        case None => st := st.(thrown := Some(SyntaxError));
        case Some(Token(t)) => st := st.(tokens := st.tokens + [t]);
        case Some(Failed(e)) =>
          st := if e != "" then st.(thrown := Some(Emitted(e))) else st.(final := Some(Undefined));
        case Some(Final(r)) => st := st.(final := Some(Fields(r)));
      }
      if st.thrown.Some? {
        ThrownStays(c, st, Lines(buffer));
        return;
      }
    }
  }

  /** runInferenceStream: the tokens handed to onToken, and the result returned or the error thrown.
      However the text is cut into chunks, it is the text alone that counts. */
  method RunInferenceStream<R>(c: Codec<R>, chunks: seq<string>)
    returns (tokens: seq<string>, r: Result<InferResult<R>, Thrown>)
    ensures tokens == ReadText(c, Concat(chunks)).tokens
    ensures r == Outcome(ReadText(c, Concat(chunks)))
  {
    var st: ReaderState<R> := Blank();
    var buffer := "";
    for k := 0 to |chunks|
      invariant st.thrown.None?
      invariant st == ReadText(c, Concat(chunks[..k])) && buffer == Rest(Concat(chunks[..k]))
    {
      ghost var before := Concat(chunks[..k]);
      assert chunks[..k + 1][..k] == chunks[..k];
      LinesOfParts(before, chunks[k]);
      OnLinesAppend(c, Blank(), Lines(before), Lines(buffer + chunks[k]));
      st, buffer := DrainBuffer(c, st, buffer + chunks[k]);
      if st.thrown.Some? {
        MoreTextSameThrow(c, chunks, k + 1);
        return st.tokens, Err(st.thrown.value);
      }
    }
    assert chunks[..|chunks|] == chunks;
    return st.tokens, Outcome(st);
  }

  /** An error thrown on the first chunks is the outcome of the whole text. */
  lemma {:induction false} MoreTextSameThrow<R>(c: Codec<R>, chunks: seq<string>, k: nat)
    requires k <= |chunks| && ReadText(c, Concat(chunks[..k])).thrown.Some?
    ensures ReadText(c, Concat(chunks)) == ReadText(c, Concat(chunks[..k]))
    decreases |chunks| - k
  {
    if k == |chunks| {
      assert chunks[..k] == chunks;
    } else {
      var before := Concat(chunks[..k]);
      assert chunks[..k + 1][..k] == chunks[..k];
      LinesOfParts(before, chunks[k]);
      OnLinesAppend(c, Blank(), Lines(before), Lines(Rest(before) + chunks[k]));
      ThrownStays(c, ReadText(c, before), Lines(Rest(before) + chunks[k]));
      MoreTextSameThrow(c, chunks, k + 1);
    }
  }

  // ---------- The writer ----------

  /** How the stream ends: with the result, with an error raised while tokens were generated, or by
      an exception that nothing catches, from the tokenizer before the first token or from looking up
      the plan of a model that was evicted meanwhile, after which no record comes at all. */
  datatype Ending<+R> = Completed(result: R) | Raised(message: string) | Uncaught

  function EndRecord<R>(end: Ending<R>): Option<Record<R>> {
    match end
    case Completed(r) => Some(Final(r))
    case Raised(e) => Some(Failed(e))
    case Uncaught => None
  }

  ghost function Printed<R>(c: Codec<R>, tokens: seq<string>): string
    decreases |tokens|
  {
    if tokens == [] then "" else Printed(c, tokens[..|tokens| - 1]) + (c.dumps(Token(tokens[|tokens| - 1])) + "\n")
  }

  /** Everything the stream of a generation contains. */
  ghost function Stream<R>(c: Codec<R>, tokens: seq<string>, end: Ending<R>): string {
    if EndRecord(end).None? then Printed(c, tokens)
    else Printed(c, tokens) + (c.dumps(EndRecord(end).value) + "\n")
  }

  /** _run_inference_stream: what it yields, one after the other. */
  method WriteStream<R>(c: Codec<R>, tokens: seq<string>, end: Ending<R>) returns (pieces: seq<string>)
    ensures |pieces| == |tokens| + (if end.Uncaught? then 0 else 1) && Concat(pieces) == Stream(c, tokens, end)
  {
    pieces := [];
    for k := 0 to |tokens|
      invariant |pieces| == k && Concat(pieces) == Printed(c, tokens[..k])
    {
      assert tokens[..k + 1][..k] == tokens[..k];
      var piece := c.dumps(Token(tokens[k])) + "\n";
      assert (pieces + [piece])[..k] == pieces;
      pieces := pieces + [piece];
    }
    assert tokens[..|tokens|] == tokens;
    var last := EndRecord(end);
    if last.Some? {
      var piece := c.dumps(last.value) + "\n";
      assert (pieces + [piece])[..|tokens|] == pieces;
      pieces := pieces + [piece];
    }
  }

  // ---------- There and back ----------

  /** One line, from brace to brace. */
  ghost predicate IsOneLineObject(s: string) {
    |s| >= 2 && s[0] == '{' && s[|s| - 1] == '}' && '\n' !in s
  }

  ghost predicate Sound<R(!new)>(c: Codec<R>) {
    forall r: Record<R> :: IsOneLineObject(c.dumps(r)) && c.parse(c.dumps(r)) == Some(r)
  }

  lemma {:induction false} RecordIsOneLine(text: string, more: string)
    requires IsOneLineObject(text)
    ensures Lines(text + "\n" + more) == [text] + Lines(more) && Trim(text) == text
  {
    FirstLine(text + "\n" + more, text, more);
  }

  lemma {:induction false} LinesEndHere(s: string)
    requires s == "" || s[|s| - 1] == '\n'
    ensures Rest(s) == ""
    decreases |s|
  {
    if s != "" {
      var k := NewlineAt(s);
      LinesEndHere(s[k + 1..]);
    }
  }

  lemma {:induction false} PrintedEnds<R>(c: Codec<R>, tokens: seq<string>)
    ensures Rest(Printed(c, tokens)) == ""
  {
    LinesEndHere(Printed(c, tokens));
  }

  lemma {:induction false} OneMoreLine(text: string, line: string)
    requires IsOneLineObject(line) && Rest(text) == ""
    ensures Lines(text + (line + "\n")) == Lines(text) + [line]
  {
    assert Lines("") == [];
    hide Trim, Lines, Rest, NewlineAt, IsOneLineObject;
    var ended := line + "\n";
    RecordIsOneLine(line, "");
    assert ended + "" == ended;
    assert Lines(ended) == [line];
    LinesOfParts(text, ended);
    assert "" + ended == ended;
  }

  /** One more record behind a text that ends in a newline. */
  lemma {:induction false} ReadOneMore<R(!new)>(c: Codec<R>, text: string, r: Record<R>)
    requires Sound(c) && Rest(text) == ""
    ensures ReadText(c, text + (c.dumps(r) + "\n")) == OnLine(c, ReadText(c, text), c.dumps(r))
  {
    OneMoreLine(text, c.dumps(r));
    OnLinesAppend(c, Blank(), Lines(text), [c.dumps(r)]);
    assert [c.dumps(r)][1..] == [];
  }

  lemma {:induction false} TokensComeBack<R(!new)>(c: Codec<R>, tokens: seq<string>)
    requires Sound(c)
    ensures ReadText(c, Printed(c, tokens)) == Reader(tokens, None, None)
    decreases |tokens|
  {
    if tokens != [] {
      var front, last := tokens[..|tokens| - 1], tokens[|tokens| - 1];
      TokensComeBack(c, front);
      PrintedEnds(c, front);
      ReadOneMore(c, Printed(c, front), Token(last));
      RecordIsOneLine(c.dumps(Token(last)), "");
      assert front + [last] == tokens;
    }
  }

  /** For every token list, every ending and every way of cutting the emitted text into chunks, the
      reader hands on exactly those tokens in order, and returns the final record or throws the
      emitted error; but an error with an empty message comes back as a result, and an uncaught one as
      no final result. */
  lemma {:induction false} StreamComesBack<R(!new)>(
    c: Codec<R>, tokens: seq<string>, end: Ending<R>, chunks: seq<string>)
    requires Sound(c) && Concat(chunks) == Stream(c, tokens, end)
    ensures var st := ReadText(c, Concat(chunks));
            && st.tokens == tokens
            && Outcome(st) == match end
                 case Completed(r) => Ok(Fields(r))
                 case Raised(e) => if e != "" then Err(Emitted(e)) else Ok(Undefined)
                 case Uncaught => Err(NoFinalResult)
  {
    TokensComeBack(c, tokens);
    if EndRecord(end).Some? {
      PrintedEnds(c, tokens);
      ReadOneMore(c, Printed(c, tokens), EndRecord(end).value);
      RecordIsOneLine(c.dumps(EndRecord(end).value), "");
    }
  }

  /** A raised error reaches the dashboard as an error exactly when its message is not empty. */
  lemma {:induction false} ErrorsSurfaceExactly<R(!new)>(
    c: Codec<R>, tokens: seq<string>, message: string, chunks: seq<string>)
    requires Sound(c) && Concat(chunks) == Stream(c, tokens, Raised(message))
    ensures Outcome(ReadText(c, Concat(chunks))) == Err(Emitted(message)) <==> message != ""
  {
    StreamComesBack(c, tokens, Raised(message), chunks);
  }

  // ---------- Lines that the writer does not write ----------

  /** The line makes the reader throw this. */
  ghost predicate Throws<R>(c: Codec<R>, line: string, thrown: Thrown) {
    Trim(line) != "" &&
    match c.parse(Trim(line))
    case None => thrown == SyntaxError
    case Some(Failed(e)) => e != "" && thrown == Emitted(e)
    case _ => false
  }

  /** The lines of a text with one more line in it. */
  lemma {:induction false} LinesAround(a: string, line: string, b: string)
    requires Rest(a) == "" && '\n' !in line
    ensures Lines(a + ((line + "\n") + b)) == Lines(a) + ([line] + Lines(b))
    ensures Lines(a + b) == Lines(a) + Lines(b)
  {
    LinesOfParts(a, (line + "\n") + b);
    FirstLine((line + "\n") + b, line, b);
    LinesOfParts(a, b);
    assert Rest(a) + ((line + "\n") + b) == (line + "\n") + b && Rest(a) + b == b;
  }

  /** A line that is no record, or an error record, ends the reading there: the tokens before it were
      handed on, and nothing after it counts. */
  lemma {:induction false} BadLineThrows<R(!new)>(
    c: Codec<R>, tokens: seq<string>, line: string, more: string, thrown: Thrown)
    requires Sound(c) && '\n' !in line && Throws(c, line, thrown)
    ensures var st := ReadText(c, Printed(c, tokens) + ((line + "\n") + more));
            st.tokens == tokens && Outcome(st) == Err(thrown)
  {
    hide Trim, Lines, Printed, Sound, Rest;
    var text := Printed(c, tokens);
    PrintedEnds(c, tokens);
    TokensComeBack(c, tokens);
    LinesAround(text, line, more);
    OnLinesAppend(c, Blank(), Lines(text), [line] + Lines(more));
    assert ([line] + Lines(more))[1..] == Lines(more);
    ThrownStays(c, OnLine(c, Reader(tokens, None, None), line), Lines(more));
  }

  /** A line of white space makes no difference. */
  lemma {:induction false} BlankLineSkipped<R>(c: Codec<R>, a: string, line: string, b: string)
    requires Rest(a) == "" && '\n' !in line && AllSpace(line)
    ensures ReadText(c, a + ((line + "\n") + b)) == ReadText(c, a + b)
  {
    hide Trim, Lines, Rest;
    LinesAround(a, line, b);
    BlankTrims(line);
    OnLinesAppend(c, Blank(), Lines(a), [line] + Lines(b));
    OnLinesAppend(c, Blank(), Lines(a), Lines(b));
    assert ([line] + Lines(b))[1..] == Lines(b);
  }

  lemma {:induction false} BlankTrims(line: string)
    requires AllSpace(line)
    ensures Trim(line) == ""
    decreases |line|
  {
    if line != "" {
      BlankTrims(line[1..]);
    }
  }

  // ---------- A stream cut short ----------

  lemma {:induction false} LinesOfRecords<R(!new)>(c: Codec<R>, tokens: seq<string>)
    requires Sound(c)
    ensures |Lines(Printed(c, tokens))| == |tokens|
    ensures forall k :: 0 <= k < |tokens| ==> Lines(Printed(c, tokens))[k] == c.dumps(Token(tokens[k]))
    decreases |tokens|
  {
    if tokens != [] {
      var front, line := tokens[..|tokens| - 1], c.dumps(Token(tokens[|tokens| - 1]));
      LinesOfRecords(c, front);
      PrintedEnds(c, front);
      OneMoreLine(Printed(c, front), line);
    }
  }

  lemma {:induction false} TokenLines<R(!new)>(c: Codec<R>, lines: seq<string>, tokens: seq<string>)
    requires Sound(c) && |lines| <= |tokens|
    requires forall k :: 0 <= k < |lines| ==> lines[k] == c.dumps(Token(tokens[k]))
    ensures OnLines(c, Blank(), lines) == Reader(tokens[..|lines|], None, None)
    decreases |lines|
  {
    hide Trim, IsSpace, Lines, NewlineAt;
    if lines != [] {
      var front, n := lines[..|lines| - 1], |lines| - 1;
      TokenLines(c, front, tokens);
      OnLinesAppend(c, Blank(), front, [lines[n]]);
      assert lines == front + [lines[n]] && [lines[n]][1..] == [];
      RecordIsOneLine(lines[n], "");
      assert tokens[..n] + [tokens[n]] == tokens[..n + 1];
    }
  }

  /** What is cut off the end of a text that ends in a newline costs it a line at least. */
  lemma {:induction false} FewerLines(text: string, lost: string)
    requires lost != "" && lost[|lost| - 1] == '\n'
    ensures |Lines(text)| < |Lines(text + lost)| && Lines(text) <= Lines(text + lost)
  {
    LinesOfParts(text, lost);
    var left := Rest(text) + lost;
    assert left[|left| - 1] == '\n';
    assert NewlineAt(left) < |left|;
  }

  lemma {:induction false} StreamLines<R(!new)>(c: Codec<R>, tokens: seq<string>, end: Ending<R>)
    requires Sound(c)
    ensures var s := Stream(c, tokens, end);
            && |tokens| <= |Lines(s)| <= |tokens| + 1
            && (forall k :: 0 <= k < |tokens| ==> Lines(s)[k] == c.dumps(Token(tokens[k])))
            && (s != "" ==> s[|s| - 1] == '\n')
  {
    LinesOfRecords(c, tokens);
    if EndRecord(end).Some? {
      PrintedEnds(c, tokens);
      OneMoreLine(Printed(c, tokens), c.dumps(EndRecord(end).value));
    }
  }

  /** When the connection drops anywhere before the end, the reader has handed on the first few
      tokens, none of them wrong, and says that no final result came. */
  lemma {:induction false} CutShort<R(!new)>(
    c: Codec<R>, tokens: seq<string>, end: Ending<R>, text: string, lost: string)
    requires Sound(c) && text + lost == Stream(c, tokens, end) && lost != ""
    ensures ReadText(c, text).tokens <= tokens
    ensures Outcome(ReadText(c, text)) == Err(NoFinalResult)
  {
    hide Lines, OnLines, Printed, Sound, Stream, Rest;
    StreamLines(c, tokens, end);
    var whole := text + lost;
    assert lost[|lost| - 1] == whole[|whole| - 1];
    FewerLines(text, lost);
    assert forall k :: 0 <= k < |Lines(text)| ==> Lines(text)[k] == Lines(whole)[k];
    TokenLines(c, Lines(text), tokens);
  }

  /** Write a stream, cut it anywhere, and read it. */
  method WriteThenRead<R(!new)>(c: Codec<R>, sent: seq<string>, end: Ending<R>, chunks: seq<string>)
    returns (tokens: seq<string>, r: Result<InferResult<R>, Thrown>)
    requires Sound(c) && Concat(chunks) == Stream(c, sent, end)
    ensures tokens == sent
    ensures end.Completed? ==> r == Ok(Fields(end.result))
    ensures end.Raised? && end.message != "" ==> r == Err(Emitted(end.message))
    ensures end.Uncaught? ==> r == Err(NoFinalResult)
  {
    StreamComesBack(c, sent, end, chunks);
    tokens, r := RunInferenceStream(c, chunks);
  }
}
