/**
 * The streamed chat reader: bytes arrive in arbitrary chunks, complete lines are
 * parsed as they appear, and every text delta is forwarded at once. UTF-8 decoding
 * and JSON parsing are parameters.
 */
module ChatStream {
  import opened Options
  import opened Json
  import opened Text
  import opened BoundedBody

  const NEWLINE: Byte := 10
  const RETURN: Byte := 13
  const SNIPPET_LIMIT := 1024

  datatype Format = OllamaNdjson | OpenAiSse | AnthropicSse

  /** What the reader relies on: lossy UTF-8 decoding and a JSON parser. */
  datatype Codec = Codec(decode: seq<Byte> -> string, json: string -> Option<Value>)

  /** What one line contributes. */
  datatype Line = Line(delta: Option<string>, done: bool, error: Option<string>)

  const NOTHING := Line(None, false, None)

  datatype StreamError = Aborted(message: string) | TooLarge | Transport

  // ---------------------------------------------------------------- one line

  function AsStr(v: Option<Value>): Option<string> {
    if v.Some? && v.value.Str? then Some(v.value.s) else None
  }

  function Member(v: Option<Value>, key: string): Option<Value> {
    if v.Some? then Get(v.value, key) else None
  }

  /** The step `/0` of a JSON pointer: the first item of an array, or the member "0" of an object. */
  function First(v: Option<Value>): Option<Value> {
    if v.Some? && v.value.Arr? then if v.value.items == [] then None else Some(v.value.items[0])
    else Member(v, "0")
  }

  function NonEmpty(text: Option<string>): (r: Option<string>)
    ensures r != Some("") && (text.Some? && text.value != "" ==> r == text)
  {
    if text.Some? && text.value == "" then None else text
  }

  /** The part of `parse_chat_stream_line` after JSON parsing. */
  function ReadEvent(format: Format, v: Value): Line {
    var error := Get(v, "error");
    if error.Some? then
      var message := AsStr(Get(error.value, "message"));
      NOTHING.(error := Some(
        if message.Some? then message.value
        else if error.value.Str? then error.value.s
        else "provider reported a stream error"))
    else
      match format
      case OllamaNdjson =>
        var done := Get(v, "done");
        Line(NonEmpty(AsStr(Member(Get(v, "message"), "content"))),
             done.Some? && done.value.Bool? && done.value.b, None)
      case OpenAiSse =>
        Line(NonEmpty(AsStr(Member(Member(First(Get(v, "choices")), "delta"), "content"))), false, None)
      case AnthropicSse =>
        var kind := AsStr(Get(v, "type"));
        var delta := Get(v, "delta");
        if kind == Some("content_block_delta") && AsStr(Member(delta, "type")) == Some("text_delta")
        then NOTHING.(delta := NonEmpty(AsStr(Member(delta, "text"))))
        else NOTHING.(done := kind == Some("message_stop"))
  }

  /** The line carries a payload of the format: any non-blank line, or an SSE `data:` line. */
  predicate HasPayload(format: Format, line: string) {
    line != "" && (format.OllamaNdjson? || "data:" <= line)
  }

  /** `parse_chat_stream_line`. */
  function ParseLine(c: Codec, format: Format, raw: string): Line {
    var line := Trim(raw);
    if !HasPayload(format, line) then NOTHING
    else
      var payload := if format.OllamaNdjson? then line else Trim(line[5..]);
      if format.OpenAiSse? && payload == "[DONE]" then NOTHING.(done := true)
      else
        match c.json(payload)
        case None => NOTHING
        case Some(v) => ReadEvent(format, v)
  }

  /** What a line of bytes contributes. */
  type Reader = seq<Byte> -> Line

  /** The parsing half of `apply_chat_stream_line`, with the error text cut to its limit. */
  function LineReader(c: Codec, format: Format): Reader {
    line =>
      var parsed := ParseLine(c, format, c.decode(line));
      if parsed.error.Some? then parsed.(error := Some(Truncated(parsed.error.value, SNIPPET_LIMIT))) else parsed
  }

  // --------------------------------------------------- the reference: a replay

  datatype Stop = Running | Finished | Failed(message: string)

  /** The deltas delivered so far, and whether a line has ended the stream. */
  datatype Replay = Replay(deltas: seq<string>, stop: Stop)

  const START := Replay([], Running)

  function Feed(f: Reader, r: Replay, line: seq<Byte>): Replay {
    if !r.stop.Running? then r
    else
      var parsed := f(line);
      if parsed.error.Some? then Replay(r.deltas, Failed(parsed.error.value))
      else
        Replay(
          if parsed.delta.Some? then r.deltas + [parsed.delta.value] else r.deltas,
          if parsed.done then Finished else Running)
  }

  function Play(f: Reader, r: Replay, lines: seq<seq<Byte>>): Replay
    decreases |lines|
  {
    if lines == [] then r else Play(f, Feed(f, r, lines[0]), lines[1..])
  }

  /** The lines of a body that a newline ends. */
  function Complete(body: seq<Byte>): seq<seq<Byte>> {
    SplitFrom([], body).0
  }

  /** What follows the last newline. */
  function Tail(body: seq<Byte>): seq<Byte> {
    SplitFrom([], body).1
  }

  /** Splitting, with the start of the current line. */
  function SplitFrom(line: seq<Byte>, body: seq<Byte>): (seq<seq<Byte>>, seq<Byte>)
    decreases |body|
  {
    if body == [] then ([], line)
    else if body[0] == NEWLINE then
      var rest := SplitFrom([], body[1..]);
      ([line] + rest.0, rest.1)
    else SplitFrom(line + [body[0]], body[1..])
  }

  function Joined(deltas: seq<string>): string {
    if deltas == [] then "" else Joined(deltas[..|deltas| - 1]) + deltas[|deltas| - 1]
  }

  datatype End = Closed | Broken | Exceeded

  /** The bytes read before the body ends, breaks off or exceeds the limit, `n` bytes into it. */
  function Received(chunks: seq<Chunk>, n: nat): (seq<Byte>, End) {
    if chunks == [] then ([], Closed)
    else if chunks[0].Failure? then ([], Broken)
    else if n + |chunks[0].bytes| > LIMIT then ([], Exceeded)
    else
      var rest := Received(chunks[1..], n + |chunks[0].bytes|);
      (chunks[0].bytes + rest.0, rest.1)
  }

  /** The answer to a whole body, line by line: the deltas delivered and the result returned. */
  function Answer(f: Reader, body: seq<Byte>, end: End): (seq<string>, Result<string, StreamError>) {
    var r := Play(f, START, Complete(body));
    match r.stop
    case Failed(m) => (r.deltas, Err(Aborted(m)))
    case Finished => (r.deltas, Ok(Joined(r.deltas)))
    case Running =>
      match end
      case Exceeded => (r.deltas, Err(TooLarge))
      case Broken => (r.deltas, Err(Transport))
      case Closed =>
        var last := if Tail(body) == [] then r else Feed(f, r, Tail(body));
        (last.deltas, if last.stop.Failed? then Err(Aborted(last.stop.message)) else Ok(Joined(last.deltas)))
  }

  // --------------------------------------------------------------- the reader

  lemma {:induction false} SplitFromAppend(line: seq<Byte>, a: seq<Byte>, b: seq<Byte>)
    ensures var s := SplitFrom(line, a); var t := SplitFrom(s.1, b);
      SplitFrom(line, a + b) == (s.0 + t.0, t.1)
    decreases |a|
  {
    if a == [] {
      assert a + b == b;
      assert [] + SplitFrom(line, b).0 == SplitFrom(line, b).0;
    } else {
      assert (a + b)[1..] == a[1..] + b;
      if a[0] == NEWLINE {
        SplitFromAppend([], a[1..], b);
        var s := SplitFrom([], a[1..]);
        var t := SplitFrom(s.1, b);
        assert [line] + s.0 + t.0 == [line] + (s.0 + t.0);
      } else {
        SplitFromAppend(line + [a[0]], a[1..], b);
      }
    }
  }

  lemma {:induction false} SplitFromNoNewline(line: seq<Byte>, a: seq<Byte>)
    requires NEWLINE !in a
    ensures SplitFrom(line, a) == ([], line + a)
    decreases |a|
  {
    if a != [] {
      SplitFromNoNewline(line + [a[0]], a[1..]);
      assert line + [a[0]] + a[1..] == line + a;
    } else {
      assert line + a == line;
    }
  }

  lemma {:induction false} PlayAppend(f: Reader, r: Replay, a: seq<seq<Byte>>, b: seq<seq<Byte>>)
    ensures Play(f, r, a + b) == Play(f, Play(f, r, a), b)
    decreases |a|
  {
    if a == [] {
      assert a + b == b;
    } else {
      assert (a + b)[1..] == a[1..] + b;
      PlayAppend(f, Feed(f, r, a[0]), a[1..], b);
    }
  }

  lemma {:induction false} StoppedStays(f: Reader, r: Replay, lines: seq<seq<Byte>>)
    requires !r.stop.Running?
    ensures Play(f, r, lines) == r
  {
    if lines != [] { StoppedStays(f, r, lines[1..]); }
  }

  /** The first line of a buffer that holds a newline. */
  lemma FirstLine(pending: seq<Byte>, n: nat)
    requires n < |pending| && pending[n] == NEWLINE && NEWLINE !in pending[..n]
    ensures Complete(pending) == [pending[..n]] + Complete(pending[n + 1..])
    ensures Tail(pending) == Tail(pending[n + 1..])
  {
    var line, rest := pending[..n], pending[n + 1..];
    SplitFromNoNewline([], line);
    SplitFromAppend([], line, pending[n..]);
    assert line + pending[n..] == pending && [] + line == line;
    assert pending[n..][1..] == rest;
  }

  lemma PlayFirst(f: Reader, r: Replay, pending: seq<Byte>, n: nat)
    requires n < |pending| && pending[n] == NEWLINE && NEWLINE !in pending[..n]
    ensures Play(f, r, Complete(pending)) == Play(f, Feed(f, r, pending[..n]), Complete(pending[n + 1..]))
    ensures Tail(pending) == Tail(pending[n + 1..])
  {
    FirstLine(pending, n);
    assert ([pending[..n]] + Complete(pending[n + 1..]))[1..] == Complete(pending[n + 1..]);
  }

  /** `pending.iter().position(|byte| *byte == b'\n')`. */
  method Position(pending: seq<Byte>) returns (n: Option<nat>)
    ensures n.None? ==> NEWLINE !in pending
    ensures n.Some? ==> n.value < |pending| && pending[n.value] == NEWLINE && NEWLINE !in pending[..n.value]
  {
    var i := 0;
    while i < |pending|
      invariant i <= |pending| && NEWLINE !in pending[..i]
    {
      if pending[i] == NEWLINE {
        return Some(i);
      }
      i := i + 1;
    }
    return None;
  }

  /** `apply_chat_stream_line`: `delivered` is what `on_delta` has been given, `text` their concatenation. */
  method ApplyLine(f: Reader, line: seq<Byte>, text: string, delivered: seq<string>)
    returns (longer: string, all: seq<string>, done: Result<bool, StreamError>)
    requires text == Joined(delivered)
    ensures var next := Feed(f, Replay(delivered, Running), line);
      && all == next.deltas && longer == Joined(all)
      && done == (match next.stop case Failed(m) => Err(Aborted(m)) case s => Ok(s.Finished?))
  {
    longer, all := text, delivered;
    var parsed := f(line);
    if parsed.error.Some? {
      return longer, all, Err(Aborted(parsed.error.value));
    }
    if parsed.delta.Some? {
      all := delivered + [parsed.delta.value];
      longer := text + parsed.delta.value;
      assert all[..|delivered|] == delivered;
    }
    done := Ok(parsed.done);
  }

  /** The complete lines of the buffer; `stop` is `None` when more bytes are needed. */
  method TakeLines(f: Reader, buffer: seq<Byte>, before: string, sent: seq<string>)
    returns (pending: seq<Byte>, text: string, delivered: seq<string>, stop: Option<Result<string, StreamError>>)
    requires before == Joined(sent)
    ensures var next := Play(f, Replay(sent, Running), Complete(buffer));
      && delivered == next.deltas && text == Joined(delivered)
      && stop == (match next.stop
                  case Running => None
                  case Finished => Some(Ok(text))
                  case Failed(m) => Some(Err(Aborted(m))))
      && (stop.None? ==> pending == Tail(buffer))
  {
    pending, text, delivered := buffer, before, sent;
    while true
      invariant text == Joined(delivered) && Tail(pending) == Tail(buffer)
      invariant Play(f, Replay(delivered, Running), Complete(pending))
             == Play(f, Replay(sent, Running), Complete(buffer))
      decreases |pending|
    {
      var position := Position(pending);
      if position.None? {
        SplitFromNoNewline([], pending);
        return pending, text, delivered, None;
      }
      var line := pending[..position.value];
      PlayFirst(f, Replay(delivered, Running), pending, position.value);
      ghost var next := Feed(f, Replay(delivered, Running), line);
      pending := pending[position.value + 1..];
      var done;
      text, delivered, done := ApplyLine(f, line, text, delivered);
      if done != Ok(false) {
        StoppedStays(f, next, Complete(pending));
        return pending, text, delivered, Some(if done.Err? then Err(done.error) else Ok(text));
      }
    }
  }

  /** `body` is what the first `i` chunks brought, and the rest is still to come. */
  ghost predicate Upto(chunks: seq<Chunk>, i: nat, body: seq<Byte>)
    requires i <= |chunks|
  {
    var later := Received(chunks[i..], |body|);
    Received(chunks, 0) == (body + later.0, later.1)
  }

  lemma UptoStart(chunks: seq<Chunk>)
    ensures Upto(chunks, 0, [])
  {
    assert chunks[0..] == chunks && [] + Received(chunks, 0).0 == Received(chunks, 0).0;
  }

  lemma UptoNext(chunks: seq<Chunk>, i: nat, body: seq<Byte>)
    requires i < |chunks| && Upto(chunks, i, body)
    ensures chunks[i].Failure? ==> Received(chunks, 0) == (body, Broken)
    ensures chunks[i].Data? && |body| + |chunks[i].bytes| > LIMIT ==> Received(chunks, 0) == (body, Exceeded)
    ensures chunks[i].Data? && |body| + |chunks[i].bytes| <= LIMIT ==> Upto(chunks, i + 1, body + chunks[i].bytes)
  {
    assert chunks[i..][1..] == chunks[i + 1..] && body + [] == body;
    if chunks[i].Data? && |body| + |chunks[i].bytes| <= LIMIT {
      var later := Received(chunks[i + 1..], |body| + |chunks[i].bytes|);
      assert body + chunks[i].bytes + later.0 == body + (chunks[i].bytes + later.0);
    }
  }

  /** `read_chat_stream`: what is returned, and the deltas passed to `on_delta` in order. */
  method ReadChatStream(f: Reader, chunks: seq<Chunk>)
    returns (delivered: seq<string>, result: Result<string, StreamError>)
    ensures var (body, end) := Received(chunks, 0); (delivered, result) == Answer(f, body, end)
  {
    var pending, received, text, i := [], 0, "", 0;
    delivered := [];
    ghost var body: seq<Byte> := [];
    UptoStart(chunks);
    while i < |chunks|
      invariant i <= |chunks| && received == |body| && Upto(chunks, i, body)
      invariant Play(f, START, Complete(body)) == Replay(delivered, Running)
      invariant text == Joined(delivered) && pending == Tail(body)
    {
      UptoNext(chunks, i, body);
      if chunks[i].Failure? {
        return delivered, Err(Transport);
      }
      var chunk := chunks[i].bytes;
      received := received + |chunk|;
      if received > LIMIT {
        return delivered, Err(TooLarge);
      }
      TailCarries(f, body, chunk);
      var stop;
      pending, text, delivered, stop := TakeLines(f, pending + chunk, text, delivered);
      body := body + chunk;
      if stop.Some? {
        PlayExtends(f, body, Received(chunks[i + 1..], |body|).0);
        return delivered, stop.value;
      }
      i := i + 1;
    }
    assert body + [] == body;
    if pending != [] {
      var done;
      text, delivered, done := ApplyLine(f, pending, text, delivered);
      return delivered, if done.Err? then Err(done.error) else Ok(text);
    }
    return delivered, Ok(text);
  }

  /** Bytes appended to a body whose unfinished line is `Tail(body)`. */
  lemma TailCarries(f: Reader, body: seq<Byte>, chunk: seq<Byte>)
    ensures Play(f, START, Complete(body + chunk))
         == Play(f, Play(f, START, Complete(body)), Complete(Tail(body) + chunk))
    ensures Tail(body + chunk) == Tail(Tail(body) + chunk)
  {
    SplitFromAppend([], body, chunk);
    SplitFromAppend([], Tail(body), chunk);
    TailHasNoNewline([], body);
    SplitFromNoNewline([], Tail(body));
    assert [] + Tail(body) == Tail(body);
    PlayAppend(f, START, Complete(body), SplitFrom(Tail(body), chunk).0);
    assert [] + SplitFrom(Tail(body), chunk).0 == SplitFrom(Tail(body), chunk).0;
  }

  lemma {:induction false} TailHasNoNewline(line: seq<Byte>, body: seq<Byte>)
    requires NEWLINE !in line
    ensures NEWLINE !in SplitFrom(line, body).1
    ensures forall i :: 0 <= i < |SplitFrom(line, body).0| ==> NEWLINE !in SplitFrom(line, body).0[i]
    decreases |body|
  {
    if body != [] {
      if body[0] == NEWLINE { TailHasNoNewline([], body[1..]); } else { TailHasNoNewline(line + [body[0]], body[1..]); }
    }
  }

  /** Once a line has ended the stream, later bytes change nothing. */
  lemma PlayExtends(f: Reader, body: seq<Byte>, more: seq<Byte>)
    requires !Play(f, START, Complete(body)).stop.Running?
    ensures Play(f, START, Complete(body + more)) == Play(f, START, Complete(body))
  {
    SplitFromAppend([], body, more);
    var later := SplitFrom(Tail(body), more).0;
    PlayAppend(f, START, Complete(body), later);
    StoppedStays(f, Play(f, START, Complete(body)), later);
  }

  // ------------------------------------------------------------ main results

  function Bytes(chunks: seq<Chunk>): seq<Byte>
    requires forall k :: 0 <= k < |chunks| ==> chunks[k].Data?
  {
    if chunks == [] then [] else chunks[0].bytes + Bytes(chunks[1..])
  }

  /** However a body within the limit is cut into chunks, all of it is received, and the answer is that of the body. */
  lemma {:induction false} ChunkInvariance(chunks: seq<Chunk>, n: nat)
    requires forall k :: 0 <= k < |chunks| ==> chunks[k].Data?
    requires n + |Bytes(chunks)| <= LIMIT
    ensures Received(chunks, n) == (Bytes(chunks), Closed)
    decreases |chunks|
  {
    if chunks != [] { ChunkInvariance(chunks[1..], n + |chunks[0].bytes|); }
  }

  /** Two chunkings of the same bytes, even inside a character, are received alike, so the answer is the same. */
  lemma SameBytesSameAnswer(a: seq<Chunk>, b: seq<Chunk>)
    requires forall k :: 0 <= k < |a| ==> a[k].Data?
    requires forall k :: 0 <= k < |b| ==> b[k].Data?
    requires Bytes(a) == Bytes(b) && |Bytes(a)| <= LIMIT
    ensures Received(a, 0) == Received(b, 0)
  {
    ChunkInvariance(a, 0);
    ChunkInvariance(b, 0);
  }

  /** The bytes sent before the connection ends or breaks. */
  function Sent(chunks: seq<Chunk>): seq<Byte> {
    if chunks == [] || !chunks[0].Data? then [] else chunks[0].bytes + Sent(chunks[1..])
  }

  /** What is received never exceeds the limit, and is a prefix of the bytes sent. */
  lemma {:induction false} ReceivedWithinLimit(chunks: seq<Chunk>, n: nat)
    requires n <= LIMIT
    ensures n + |Received(chunks, n).0| <= LIMIT && Received(chunks, n).0 <= Sent(chunks)
    decreases |chunks|
  {
    if chunks != [] && chunks[0].Data? && n + |chunks[0].bytes| <= LIMIT {
      ReceivedWithinLimit(chunks[1..], n + |chunks[0].bytes|);
    }
  }

  function Unlines(lines: seq<seq<Byte>>): seq<Byte> {
    if lines == [] then [] else lines[0] + [NEWLINE] + Unlines(lines[1..])
  }

  ghost predicate NoNewlines(lines: seq<seq<Byte>>) {
    forall i :: 0 <= i < |lines| ==> NEWLINE !in lines[i]
  }

  /** `Complete` and `Tail` are the only way to write a body as newline-terminated lines and a rest. */
  lemma {:induction false} SplitIsUnique(lines: seq<seq<Byte>>, tail: seq<Byte>)
    requires NoNewlines(lines) && NEWLINE !in tail
    ensures SplitFrom([], Unlines(lines) + tail) == (lines, tail)
    decreases |lines|
  {
    if lines == [] {
      assert Unlines(lines) + tail == tail && [] + tail == tail;
      SplitFromNoNewline([], tail);
    } else {
      var rest := Unlines(lines[1..]) + tail;
      SplitIsUnique(lines[1..], tail);
      SplitFromNoNewline([], lines[0]);
      SplitFromAppend([], lines[0], [NEWLINE] + rest);
      assert ([NEWLINE] + rest)[1..] == rest && [] + lines[0] == lines[0];
      assert lines[0] + [NEWLINE] + Unlines(lines[1..]) + tail == lines[0] + ([NEWLINE] + rest);
      assert [] + ([lines[0]] + lines[1..]) == lines;
    }
  }

  lemma {:induction false} SplitFromJoins(line: seq<Byte>, body: seq<Byte>)
    ensures var s := SplitFrom(line, body); Unlines(s.0) + s.1 == line + body
    decreases |body|
  {
    if body != [] {
      var rest := body[1..];
      assert body == [body[0]] + rest;
      if body[0] == NEWLINE {
        SplitFromJoins([], rest);
        var s := SplitFrom([], rest);
        assert ([line] + s.0)[1..] == s.0;
        assert line + [NEWLINE] + Unlines(s.0) + s.1 == line + [NEWLINE] + (Unlines(s.0) + s.1);
        assert line + [NEWLINE] + rest == line + body;
      } else {
        SplitFromJoins(line + [body[0]], rest);
        assert line + [body[0]] + rest == line + body;
      }
    }
  }

  /** Every body is its complete lines and its tail, none of which holds a newline. */
  lemma SplitsBody(body: seq<Byte>)
    ensures Unlines(Complete(body)) + Tail(body) == body
    ensures NoNewlines(Complete(body)) && NEWLINE !in Tail(body)
  {
    SplitFromJoins([], body);
    assert [] + body == body;
    TailHasNoNewline([], body);
  }

  /** After the line that ends the stream, neither further bytes nor a broken connection change the answer. */
  lemma EarlyStopIgnoresTheRest(f: Reader, body: seq<Byte>, more: seq<Byte>, end: End, other: End)
    requires !Play(f, START, Complete(body)).stop.Running?
    ensures Answer(f, body + more, end) == Answer(f, body, other)
  {
    PlayExtends(f, body, more);
  }

  ghost predicate AllNonEmpty(deltas: seq<string>) {
    forall i :: 0 <= i < |deltas| ==> deltas[i] != ""
  }

  ghost predicate NeverEmpty(f: Reader) {
    forall line: seq<Byte> :: f(line).delta != Some("")
  }

  lemma ReaderNeverEmpty(c: Codec, format: Format)
    ensures NeverEmpty(LineReader(c, format))
  {
    var f := LineReader(c, format);
    forall line: seq<Byte> ensures f(line).delta != Some("") {
      assert ParseLine(c, format, c.decode(line)).delta != Some("");
    }
  }

  lemma {:induction false} PlayedDeltas(f: Reader, r: Replay, lines: seq<seq<Byte>>)
    requires NeverEmpty(f) && AllNonEmpty(r.deltas)
    ensures r.deltas <= Play(f, r, lines).deltas && AllNonEmpty(Play(f, r, lines).deltas)
    decreases |lines|
  {
    if lines != [] {
      assert f(lines[0]).delta != Some("");
      PlayedDeltas(f, Feed(f, r, lines[0]), lines[1..]);
    }
  }

  /** On success the deltas delivered concatenate to the text returned; an empty delta is never delivered. */
  lemma DeltasAreTheText(c: Codec, format: Format, body: seq<Byte>, end: End)
    ensures var (deltas, result) := Answer(LineReader(c, format), body, end);
      AllNonEmpty(deltas) && (result.Ok? ==> result.value == Joined(deltas))
  {
    var f := LineReader(c, format);
    var r := Play(f, START, Complete(body));
    ReaderNeverEmpty(c, format);
    PlayedDeltas(f, START, Complete(body));
    PlayedDeltas(f, r, [Tail(body)]);
    assert Play(f, r, [Tail(body)]) == Play(f, Feed(f, r, Tail(body)), []);
  }

  // ----------------------------------------------------------- SSE framing

  /** The lines that carry a payload of the format. */
  function PayloadLines(c: Codec, format: Format, lines: seq<seq<Byte>>): seq<seq<Byte>>
    decreases |lines|
  {
    if lines == [] then []
    else
      (if HasPayload(format, Trim(c.decode(lines[0]))) then [lines[0]] else [])
      + PayloadLines(c, format, lines[1..])
  }

  /** Blank lines, comments and the `event`, `id` and `retry` fields of an event stream never matter. */
  lemma {:induction false} OnlyPayloadLinesMatter(c: Codec, format: Format, r: Replay, lines: seq<seq<Byte>>)
    ensures Play(LineReader(c, format), r, PayloadLines(c, format, lines)) == Play(LineReader(c, format), r, lines)
    decreases |lines|
  {
    if lines != [] {
      var rest := PayloadLines(c, format, lines[1..]);
      var next := Feed(LineReader(c, format), r, lines[0]);
      OnlyPayloadLinesMatter(c, format, next, lines[1..]);
      if HasPayload(format, Trim(c.decode(lines[0]))) {
        assert ([lines[0]] + rest)[1..] == rest;
      } else {
        assert [] + rest == rest;
        assert next == r;
      }
    }
  }

  /** The same body with CR LF line ends. */
  function WithReturns(body: seq<Byte>): seq<Byte> {
    if body == [] then []
    else (if body[0] == NEWLINE then [RETURN, NEWLINE] else [body[0]]) + WithReturns(body[1..])
  }

  function AddReturns(lines: seq<seq<Byte>>): seq<seq<Byte>> {
    if lines == [] then [] else [lines[0] + [RETURN]] + AddReturns(lines[1..])
  }

  /** Lossy decoding of a line keeps an ASCII byte appended to it. */
  ghost predicate DecodesReturn(decode: seq<Byte> -> string) {
    forall line: seq<Byte> :: decode(line + [RETURN]) == decode(line) + "\r"
  }

  lemma SplitReturn(line: seq<Byte>, rest: seq<Byte>)
    ensures var s := SplitFrom([], rest);
      SplitFrom(line, [RETURN, NEWLINE] + rest) == ([line + [RETURN]] + s.0, s.1)
  {
    var body := [RETURN, NEWLINE] + rest;
    assert body[1..] == [NEWLINE] + rest && body[1..][1..] == rest;
  }

  lemma {:induction false} SplitWithReturns(line: seq<Byte>, body: seq<Byte>)
    ensures var s := SplitFrom(line, body); SplitFrom(line, WithReturns(body)) == (AddReturns(s.0), s.1)
    decreases |body|
  {
    if body != [] {
      var rest := WithReturns(body[1..]);
      if body[0] == NEWLINE {
        SplitWithReturns([], body[1..]);
        SplitReturn(line, rest);
        var s := SplitFrom([], body[1..]);
        assert ([line] + s.0)[1..] == s.0;
      } else {
        SplitWithReturns(line + [body[0]], body[1..]);
        assert WithReturns(body)[1..] == rest;
      }
    }
  }

  ghost predicate IgnoresReturn(f: Reader) {
    forall line: seq<Byte> :: f(line + [RETURN]) == f(line)
  }

  lemma SameTrimSameLine(c: Codec, format: Format, raw: string, other: string)
    requires Trim(raw) == Trim(other)
    ensures ParseLine(c, format, raw) == ParseLine(c, format, other)
  {
  }

  lemma ReaderIgnoresReturn(c: Codec, format: Format)
    requires DecodesReturn(c.decode)
    ensures IgnoresReturn(LineReader(c, format))
  {
    var f := LineReader(c, format);
    forall line: seq<Byte> ensures f(line + [RETURN]) == f(line) {
      var raw := c.decode(line);
      assert c.decode(line + [RETURN]) == raw + "\r";
      TrimAppend(raw, '\r');
      SameTrimSameLine(c, format, raw + "\r", raw);
    }
  }

  lemma {:induction false} PlayWithReturns(f: Reader, r: Replay, lines: seq<seq<Byte>>)
    requires IgnoresReturn(f)
    ensures Play(f, r, AddReturns(lines)) == Play(f, r, lines)
    decreases |lines|
  {
    if lines != [] {
      assert f(lines[0] + [RETURN]) == f(lines[0]);
      assert AddReturns(lines)[1..] == AddReturns(lines[1..]);
      PlayWithReturns(f, Feed(f, r, lines[0]), lines[1..]);
    }
  }

  /** Event streams may end their lines with LF or with CR LF. */
  lemma LineEndsDoNotMatter(c: Codec, format: Format, body: seq<Byte>, end: End)
    requires DecodesReturn(c.decode)
    ensures Answer(LineReader(c, format), WithReturns(body), end) == Answer(LineReader(c, format), body, end)
  {
    SplitWithReturns([], body);
    ReaderIgnoresReturn(c, format);
    PlayWithReturns(LineReader(c, format), START, Complete(body));
  }

  // ------------------------------------------- where each format keeps what

  predicate IsMember(v: Value, key: string, member: Value) {
    Get(v, key) == Some(member)
  }

  function Delta(text: string): Option<string> {
    if text == "" then None else Some(text)
  }

  /** Ollama: the text under message and content; the stream ends with a true `done`, which may come with text. */
  lemma OllamaEvent(v: Value, message: Value, text: string, done: bool)
    requires Get(v, "error").None? && IsMember(v, "message", message) && IsMember(message, "content", Str(text))
    requires IsMember(v, "done", Bool(done))
    ensures ReadEvent(OllamaNdjson, v) == Line(Delta(text), done, None)
  {
  }

  /** OpenAI: the text under the delta of the first choice. */
  lemma OpenAiEvent(v: Value, choices: seq<Value>, delta: Value, text: string)
    requires Get(v, "error").None? && IsMember(v, "choices", Arr(choices)) && choices != []
    requires IsMember(choices[0], "delta", delta) && IsMember(delta, "content", Str(text))
    ensures ReadEvent(OpenAiSse, v) == Line(Delta(text), false, None)
  {
  }

  /** OpenAI: the stream ends with a marker instead of an event. */
  lemma OpenAiDone(c: Codec, raw: string, rest: string)
    requires Trim(raw) == "data:" + rest && Trim(rest) == "[DONE]"
    ensures ParseLine(c, OpenAiSse, raw) == Line(None, true, None)
  {
    assert ("data:" + rest)[5..] == rest;
  }

  /** Anthropic: the text of a text delta; the stream ends with a message_stop; other events say nothing. */
  lemma AnthropicEvent(v: Value, kind: string)
    requires Get(v, "error").None? && IsMember(v, "type", Str(kind))
    ensures kind == "message_stop" ==> ReadEvent(AnthropicSse, v) == Line(None, true, None)
    ensures forall delta, text ::
      kind == "content_block_delta" && IsMember(v, "delta", delta)
      && IsMember(delta, "type", Str("text_delta")) && IsMember(delta, "text", Str(text))
      ==> ReadEvent(AnthropicSse, v) == Line(Delta(text), false, None)
    ensures kind != "message_stop" && kind != "content_block_delta" ==> ReadEvent(AnthropicSse, v) == NOTHING
  {
  }

  /** Every format: an error member ends the stream with its message. */
  lemma ErrorEvent(format: Format, v: Value, error: Value, message: string)
    requires IsMember(v, "error", error)
    requires IsMember(error, "message", Str(message)) || (Get(error, "message").None? && error == Str(message))
    ensures ReadEvent(format, v) == Line(None, false, Some(message))
  {
  }

  /** An event line is read as the event its payload parses to, without the `data:` of the stream formats. */
  lemma EventLine(c: Codec, format: Format, raw: string, payload: string, v: Value)
    requires c.json(Trim(payload)) == Some(v) && (format.OpenAiSse? ==> Trim(payload) != "[DONE]")
    requires if format.OllamaNdjson? then payload != "" && Trim(raw) == payload && Trim(payload) == payload
             else Trim(raw) == "data:" + payload
    ensures ParseLine(c, format, raw) == ReadEvent(format, v)
  {
    if !format.OllamaNdjson? { assert ("data:" + payload)[5..] == payload; }
  }
}
