/** The streaming side of the Anthropic provider (src-tauri/src/ai/anthropic.rs): an incremental
    line splitter over arbitrary chunks and a fold of the events the lines carry.

    UTF-8 decoding, JSON parsing and secret redaction are parameters (`Env`). */
module AnthropicStream {
  import opened Common

  newtype byte = x: int | 0 <= x < 256

  const NEWLINE: byte := 10
  const MAX_STREAM_EVENTS: nat := 50_000
  const MAX_STREAM_TEXT_BYTES: nat := 8 * 1024 * 1024
  const U32: nat := 0x1_0000_0000
  const U64: nat := 0x1_0000_0000_0000_0000

  datatype Json =
    | Null
    | Bool(b: bool)
    | Number(n: int)
    | Str(s: string)
    | Arr(items: seq<Json>)
    | Obj(fields: map<string, Json>)

  datatype Env = Env(decode: seq<byte> -> string, parse: string -> Option<Json>, redact: string -> string)

  datatype AiError = Cancelled | Http(message: string) | Provider(message: string)
                   | TooManyEvents | TextTooLong | StreamTooLong

  datatype Usage = Usage(prompt: Option<nat>, completion: Option<nat>, total: Option<nat>)

  datatype Tool = Tool(callId: string, name: string, arguments: string)

  datatype Sent =
    | UsageUpdated(usage: Usage)
    | TextDelta(text: string)
    | ToolCallStarted(callId: string, name: string)
    | ToolCallArgumentsDelta(callId: string, delta: string)
    | ToolCallCompleted(call: Tool)
    | ResponseCancelled

  /** The mutable state of one response. `seen` is history: the parsed events, in order. */
  datatype Fold = Fold(
    text: string, usage: Usage, model: string, events: nat, tools: map<nat, Tool>,
    sent: seq<Sent>, seen: seq<Json>)

  datatype Verdict = Continue | Stop | Fail(error: AiError)

  type Answer = Result<(string, Usage, string), AiError>

  function Initial(model: string): Fold { Fold("", Usage(None, None, None), model, 0, map[], [], []) }

  // ------------------------------------------------------------ reading JSON

  function Field(v: Json, key: string): Option<Json> {
    if v.Obj? && key in v.fields then Some(v.fields[key]) else None
  }

  function In(v: Option<Json>, key: string): Option<Json> {
    if v.Some? then Field(v.value, key) else None
  }

  function AsStr(v: Option<Json>): Option<string> {
    if v.Some? && v.value.Str? then Some(v.value.s) else None
  }

  function AsU64(v: Option<Json>): Option<nat> {
    if v.Some? && v.value.Number? && 0 <= v.value.n < U64 then Some(v.value.n) else None
  }

  function Or<T>(v: Option<T>, default: T): T { if v.Some? then v.value else default }

  function TypeOf(v: Option<Json>): string { Or(AsStr(In(v, "type")), "") }

  function IndexOf(v: Json): nat { Or(AsU64(Field(v, "index")), 0) }

  function AsU32(v: Option<nat>): Option<nat> { if v.Some? then Some(v.value % U32) else None }

  /** 32-bit addition, wrapping as in a release build. */
  function Total(a: Option<nat>, b: Option<nat>, otherwise: Option<nat>): Option<nat> {
    if a.Some? && b.Some? then Some((a.value + b.value) % U32) else otherwise
  }

  function UsageFromValue(u: Option<Json>): Usage {
    var input, output := AsU32(AsU64(In(u, "input_tokens"))), AsU32(AsU64(In(u, "output_tokens")));
    Usage(input, output, Total(input, output, None))
  }

  function MergedUsage(usage: Usage, next: Usage): Usage {
    var prompt := if next.prompt.Some? then next.prompt else usage.prompt;
    var completion := if next.completion.Some? then next.completion else usage.completion;
    Usage(prompt, completion, Total(prompt, completion, if next.total.Some? then next.total else usage.total))
  }

  function StreamTextDelta(event: Json): Option<string> {
    var delta := Field(event, "delta");
    if TypeOf(Some(event)) != "content_block_delta" || TypeOf(delta) != "text_delta" then None
    else
      var text := AsStr(In(delta, "text"));
      if text == Some("") then None else text
  }

  /** The tool call a `content_block_start` opens, if it opens one. */
  function StartedTool(event: Json): Option<Tool> {
    var block := Field(event, "content_block");
    var callId, name := Or(AsStr(In(block, "id")), ""), Or(AsStr(In(block, "name")), "");
    if TypeOf(Some(event)) == "content_block_start" && TypeOf(block) == "tool_use" && callId != "" && name != ""
    then Some(Tool(callId, name, "")) else None
  }

  /** The argument text a `content_block_delta` carries, if it carries any. */
  function PartialJson(event: Json): Option<string> {
    var delta := Field(event, "delta");
    if TypeOf(Some(event)) == "content_block_delta" && TypeOf(delta) == "input_json_delta"
    then AsStr(In(delta, "partial_json")) else None
  }

  /** Bytes of the UTF-8 encoding. */
  function Utf8Len(s: string): nat {
    if s == "" then 0
    else (if s[0] < '\U{80}' then 1 else if s[0] < '\U{800}' then 2 else if s[0] < '\U{10000}' then 3 else 4)
         + Utf8Len(s[1..])
  }

  // ------------------------------------------------------------ one event

  function Send(st: Fold, e: Sent): Fold { st.(sent := st.sent + [e]) }

  /** What a parsed event does. `st` already counts it and lists it in `seen`. */
  function HandleEvent(env: Env, event: Json, st: Fold): (Fold, Verdict) {
    var kind := TypeOf(Some(event));
    if kind == "error" then
      var message := AsStr(In(Field(event, "error"), "message"));
      (st, Fail(Provider(env.redact(Or(if message.Some? then message else AsStr(Field(event, "message")),
                                       "Anthropic stream error")))))
    else if kind == "message_start" then
      var message := Field(event, "message");
      var st := st.(model := Or(AsStr(In(message, "model")), st.model));
      if In(message, "usage").None? then (st, Continue)
      else
        var usage := UsageFromValue(In(message, "usage"));
        (Send(st.(usage := usage), UsageUpdated(usage)), Continue)
    else if kind == "content_block_start" then
      var tool := StartedTool(event);
      if tool.None? then (st, Continue)
      else (Send(st.(tools := st.tools[IndexOf(event) := tool.value]),
                 ToolCallStarted(tool.value.callId, tool.value.name)), Continue)
    else if kind == "content_block_delta" then HandleDelta(event, st)
    else if kind == "content_block_stop" then
      var i := IndexOf(event);
      if i !in st.tools then (st, Continue)
      else (Send(st.(tools := st.tools - {i}), ToolCallCompleted(st.tools[i])), Continue)
    else if kind == "message_delta" && Field(event, "usage").Some? then
      var usage := MergedUsage(st.usage, UsageFromValue(Field(event, "usage")));
      (Send(st.(usage := usage), UsageUpdated(usage)), Continue)
    else if kind == "message_stop" then (st, Stop)
    else (st, Continue)
  }

  function HandleDelta(event: Json, st: Fold): (Fold, Verdict) {
    var text, partial, i := StreamTextDelta(event), PartialJson(event), IndexOf(event);
    if text.Some? then
      if Utf8Len(st.text) + Utf8Len(text.value) > MAX_STREAM_TEXT_BYTES then (st, Fail(TextTooLong))
      else (Send(st.(text := st.text + text.value), TextDelta(text.value)), Continue)
    else if partial.Some? && i in st.tools then
      var tool := st.tools[i].(arguments := st.tools[i].arguments + partial.value);
      (Send(st.(tools := st.tools[i := tool]), ToolCallArgumentsDelta(tool.callId, partial.value)), Continue)
    else (st, Continue)
  }

  // ------------------------------------------------------------ one line

  /** Unicode White_Space, which `str::trim` removes. */
  predicate IsRustSpace(c: char) {
    (IsJsSpace(c) && c != '\U{FEFF}') || c == '\U{85}'
  }

  function RustTrimStart(s: string): string {
    if s != "" && IsRustSpace(s[0]) then RustTrimStart(s[1..]) else s
  }

  function RustTrim(s: string): string
    decreases |s|
  {
    if s != "" && IsRustSpace(s[|s| - 1]) then RustTrim(s[..|s| - 1]) else RustTrimStart(s)
  }

  /** One `data:` payload. */
  function HandleData(env: Env, data: string, st: Fold): (Fold, Verdict) {
    var data := RustTrim(data);
    if data == "" then (st, Continue)
    else
      var st := st.(events := st.events + 1);
      if st.events > MAX_STREAM_EVENTS then (st, Fail(TooManyEvents))
      else
        var event := env.parse(data);
        if event.None? then (st, Continue)
        else HandleEvent(env, event.value, st.(seen := st.seen + [event.value]))
  }

  /** The payload of a line: comments, other fields and blank lines carry none. */
  function Payload(env: Env, bytes: seq<byte>): Option<string> {
    var line := RustTrim(env.decode(bytes));
    if line == "" || line[0] == ':' || !("data:" <= line) then None else Some(line[5..])
  }

  function HandleLine(env: Env, bytes: seq<byte>, st: Fold): (Fold, Verdict) {
    var data := Payload(env, bytes);
    if data.None? then (st, Continue) else HandleData(env, data.value, st)
  }

  /** Lines in order, up to the first that does not continue. */
  function HandleLines(env: Env, lines: seq<seq<byte>>, st: Fold): (Fold, Verdict) {
    if lines == [] then (st, Continue)
    else
      var (st', v) := HandleLine(env, lines[0], st);
      if v.Continue? then HandleLines(env, lines[1..], st') else (st', v)
  }

  function AnswerOf(st: Fold): Answer { Ok((st.text, st.usage, st.model)) }

  // ------------------------------------------------------------ the whole input at once

  /** Position of the first newline, or the length if there is none. */
  function FirstNewline(b: seq<byte>): (n: nat)
    ensures n <= |b| && NEWLINE !in b[..n] && (n < |b| ==> b[n] == NEWLINE)
  {
    if b == [] || b[0] == NEWLINE then 0 else 1 + FirstNewline(b[1..])
  }

  /** The complete lines, newlines included, and what follows the last of them. */
  function SplitLines(b: seq<byte>): (seq<seq<byte>>, seq<byte>)
    decreases |b|
  {
    var n := FirstNewline(b);
    if n == |b| then ([], b)
    else
      var (lines, rest) := SplitLines(b[n + 1..]);
      ([b[..n + 1]] + lines, rest)
  }

  /** The end of the stream: an unterminated last line still counts, but nothing can stop after it. */
  function Finish(env: Env, rest: seq<byte>, st: Fold): (Fold, Answer) {
    if rest == [] then (st, AnswerOf(st))
    else
      var (st', v) := HandleLine(env, rest, st);
      (st', if v.Fail? then Err(v.error) else AnswerOf(st'))
  }

  function OneShot(env: Env, bytes: seq<byte>, st: Fold): (Fold, Answer) {
    var (lines, rest) := SplitLines(bytes);
    var (st', v) := HandleLines(env, lines, st);
    match v
    case Continue => Finish(env, rest, st')
    case Stop => (st', AnswerOf(st'))
    case Fail(error) => (st', Err(error))
  }

  // ------------------------------------------------------------ the stream, item by item

  datatype Item = Chunk(bytes: seq<byte>) | TransportError(message: string) | CancelRequested

  /** What the transport delivers is fed to the splitter item by item; `buf` holds the bytes after
      the last newline so far. */
  function Drive(env: Env, items: seq<Item>, buf: seq<byte>, st: Fold): (Fold, Answer) {
    if items == [] then Finish(env, buf, st)
    else match items[0]
      case CancelRequested => (Send(st, ResponseCancelled), Err(Cancelled))
      case TransportError(message) => (st, Err(Http(env.redact(message))))
      case Chunk(bytes) =>
        if |buf| + |bytes| > MAX_STREAM_TEXT_BYTES then (st, Err(StreamTooLong))
        else
          var (lines, rest) := SplitLines(buf + bytes);
          var (st', v) := HandleLines(env, lines, st);
          match v
          case Continue => Drive(env, items[1..], rest, st')
          case Stop => (st', AnswerOf(st'))
          case Fail(error) => (st', Err(error))
  }

  function Chunks(chunks: seq<seq<byte>>): seq<Item> { seq(|chunks|, i requires 0 <= i < |chunks| => Chunk(chunks[i])) }

  function Concat(chunks: seq<seq<byte>>): seq<byte> {
    if chunks == [] then [] else chunks[0] + Concat(chunks[1..])
  }

  /** Before any event ends the stream, a chunk does not fit behind the unfinished line. */
  predicate Overruns(env: Env, chunks: seq<seq<byte>>, buf: seq<byte>, st: Fold) {
    chunks != [] &&
    (|buf| + |chunks[0]| > MAX_STREAM_TEXT_BYTES ||
     var (lines, rest) := SplitLines(buf + chunks[0]);
     var (st', v) := HandleLines(env, lines, st);
     v.Continue? && Overruns(env, chunks[1..], rest, st'))
  }

  // ------------------------------------------------------------ chunk independence

  lemma {:induction false} NewlineAtEnd(b: seq<byte>, c: seq<byte>)
    ensures NEWLINE in b ==> FirstNewline(b + c) == FirstNewline(b)
    ensures NEWLINE !in b ==> FirstNewline(b) == |b| && FirstNewline(b + c) == |b| + FirstNewline(c)
    decreases |b|
  {
    if b == [] {
      assert b + c == c;
    } else {
      assert (b + c)[1..] == b[1..] + c;
      NewlineAtEnd(b[1..], c);
    }
  }

  /** Splitting takes the first line off, whatever follows. */
  lemma SplitStep(a: seq<byte>, n: nat, b: seq<byte>)
    requires n == FirstNewline(a) < |a|
    ensures SplitLines(a + b) == ([a[..n + 1]] + SplitLines(a[n + 1..] + b).0, SplitLines(a[n + 1..] + b).1)
  {
    assert a[n] in a;
    NewlineAtEnd(a, b);
    assert (a + b)[n + 1..] == a[n + 1..] + b && (a + b)[..n + 1] == a[..n + 1];
  }

  /** Splitting can stop anywhere and be taken up again with the unfinished line. */
  lemma {:induction false} SplitResumes(a: seq<byte>, b: seq<byte>)
    ensures var (lines, rest) := SplitLines(a);
            var (more, last) := SplitLines(rest + b);
            SplitLines(a + b) == (lines + more, last)
    decreases |a|
  {
    var n := FirstNewline(a);
    if n == |a| {
      var (more, last) := SplitLines(a + b);
      assert [] + more == more;
    } else {
      SplitStep(a, n, b);
      SplitResumes(a[n + 1..], b);
      var (lines, rest) := SplitLines(a[n + 1..]);
      var (more, last) := SplitLines(rest + b);
      assert [a[..n + 1]] + (lines + more) == ([a[..n + 1]] + lines) + more;
    }
  }

  lemma {:induction false} LinesResume(env: Env, a: seq<seq<byte>>, b: seq<seq<byte>>, st: Fold)
    ensures var (st', v) := HandleLines(env, a, st);
            HandleLines(env, a + b, st) == if v.Continue? then HandleLines(env, b, st') else (st', v)
    decreases |a|
  {
    if a == [] {
      assert a + b == b;
    } else {
      assert (a + b)[1..] == a[1..] + b;
      LinesResume(env, a[1..], b, HandleLine(env, a[0], st).0);
    }
  }

  /** The one-shot reading of `buf + bytes + more` after the lines in `buf + bytes`. */
  lemma OneShotResumes(env: Env, first: seq<byte>, more: seq<byte>, st: Fold)
    ensures var (lines, rest) := SplitLines(first);
            var (st', v) := HandleLines(env, lines, st);
            OneShot(env, first + more, st) ==
              match v
              case Continue => OneShot(env, rest + more, st')
              case Stop => (st', AnswerOf(st'))
              case Fail(error) => (st', Err(error))
  {
    SplitResumes(first, more);
    var (lines, rest) := SplitLines(first);
    LinesResume(env, lines, SplitLines(rest + more).0, st);
  }

  lemma {:induction false} UnfinishedLine(b: seq<byte>)
    ensures NEWLINE !in SplitLines(b).1 && |SplitLines(b).1| <= |b|
    decreases |b|
  {
    var n := FirstNewline(b);
    if n == |b| {
      assert b[..n] == b && SplitLines(b).1 == b;
    } else {
      var more := b[n + 1..];
      UnfinishedLine(more);
      var (lines, rest) := SplitLines(more);
      assert SplitLines(b) == ([b[..n + 1]] + lines, rest);
    }
  }

  /** Feeding chunks gives what the whole input gives, events sent included, exactly when no chunk
      overruns the buffer before the stream ends; otherwise it gives the length error. */
  lemma {:induction false} ChunksAreOneShot(env: Env, chunks: seq<seq<byte>>, buf: seq<byte>, st: Fold)
    requires NEWLINE !in buf
    ensures !Overruns(env, chunks, buf, st) ==> Drive(env, Chunks(chunks), buf, st) == OneShot(env, buf + Concat(chunks), st)
    ensures Overruns(env, chunks, buf, st) ==> Drive(env, Chunks(chunks), buf, st).1 == Err(StreamTooLong)
    decreases |chunks|
  {
    if chunks == [] {
      assert buf + Concat(chunks) == buf;
      NewlineAtEnd(buf, []);
      assert FirstNewline(buf) == |buf|;
    } else if |buf| + |chunks[0]| <= MAX_STREAM_TEXT_BYTES {
      assert Chunks(chunks)[1..] == Chunks(chunks[1..]);
      assert buf + Concat(chunks) == (buf + chunks[0]) + Concat(chunks[1..]);
      OneShotResumes(env, buf + chunks[0], Concat(chunks[1..]), st);
      var (lines, rest) := SplitLines(buf + chunks[0]);
      UnfinishedLine(buf + chunks[0]);
      var (st', v) := HandleLines(env, lines, st);
      if v.Continue? { ChunksAreOneShot(env, chunks[1..], rest, st'); }
    }
  }

  lemma {:induction false} NoEventSaysTooLong(env: Env, lines: seq<seq<byte>>, st: Fold)
    ensures HandleLines(env, lines, st).1 != Fail(StreamTooLong)
    decreases |lines|
  {
    if lines != [] { NoEventSaysTooLong(env, lines[1..], HandleLine(env, lines[0], st).0); }
  }

  /** The exact condition for chunk independence. */
  lemma ChunkIndependence(env: Env, model: string, chunks: seq<seq<byte>>)
    ensures Drive(env, Chunks(chunks), [], Initial(model)) == OneShot(env, Concat(chunks), Initial(model))
            <==> !Overruns(env, chunks, [], Initial(model))
  {
    ChunksAreOneShot(env, chunks, [], Initial(model));
    assert [] + Concat(chunks) == Concat(chunks);
    OneShotNeverSaysTooLong(env, Concat(chunks), Initial(model));
  }

  lemma OneShotNeverSaysTooLong(env: Env, bytes: seq<byte>, st: Fold)
    ensures OneShot(env, bytes, st).1 != Err(StreamTooLong)
  {
    NoEventSaysTooLong(env, SplitLines(bytes).0, st);
  }

  lemma {:induction false} ShortInputFits(env: Env, chunks: seq<seq<byte>>, buf: seq<byte>, st: Fold)
    requires |buf| + |Concat(chunks)| <= MAX_STREAM_TEXT_BYTES
    ensures !Overruns(env, chunks, buf, st)
    decreases |chunks|
  {
    if chunks != [] {
      var (lines, rest) := SplitLines(buf + chunks[0]);
      UnfinishedLine(buf + chunks[0]);
      ShortInputFits(env, chunks[1..], rest, HandleLines(env, lines, st).0);
    }
  }

  /** Input within the limit: any two ways of cutting it give the same answer and the same events. */
  lemma ShortInputIsChunkIndependent(env: Env, model: string, chunks: seq<seq<byte>>, others: seq<seq<byte>>)
    requires Concat(chunks) == Concat(others) && |Concat(chunks)| <= MAX_STREAM_TEXT_BYTES
    ensures Drive(env, Chunks(chunks), [], Initial(model)) == Drive(env, Chunks(others), [], Initial(model))
  {
    ShortInputFits(env, chunks, [], Initial(model));
    ShortInputFits(env, others, [], Initial(model));
    ChunkIndependence(env, model, chunks);
    ChunkIndependence(env, model, others);
  }

  // ------------------------------------------------------------ what the events say

  /** The text of the TextDelta events, in order. */
  function SentText(sent: seq<Sent>): string {
    if sent == [] then ""
    else SentText(sent[..|sent| - 1]) + (if sent[|sent| - 1].TextDelta? then sent[|sent| - 1].text else "")
  }

  /** The usage reported last. */
  function ReportedUsage(sent: seq<Sent>): Usage {
    if sent == [] then Usage(None, None, None)
    else if sent[|sent| - 1].UsageUpdated? then sent[|sent| - 1].usage
    else ReportedUsage(sent[..|sent| - 1])
  }

  predicate Opens(event: Json, i: nat) { StartedTool(event).Some? && IndexOf(event) == i }

  predicate Closes(event: Json, i: nat) { TypeOf(Some(event)) == "content_block_stop" && IndexOf(event) == i }

  /** The argument text event `event` adds to block `i`. */
  function DeltaFor(event: Json, i: nat): string {
    if StreamTextDelta(event).None? && PartialJson(event).Some? && IndexOf(event) == i then PartialJson(event).value else ""
  }

  /** The argument deltas for block `i` among `events`, concatenated. */
  function ArgumentsOf(events: seq<Json>, i: nat): string {
    if events == [] then ""
    else
      var last := events[|events| - 1];
      ArgumentsOf(events[..|events| - 1], i) + DeltaFor(last, i)
  }

  /** `call` is the tool call that event `j` opened in block `i`, still open after `events`, with
      every argument delta since then. */
  ghost predicate OpenSince(events: seq<Json>, i: nat, j: nat, call: Tool) {
    && j < |events| && Opens(events[j], i)
    && StartedTool(events[j]).value == call.(arguments := "")
    && (forall k :: j < k < |events| ==> !Opens(events[k], i) && !Closes(events[k], i))
    && call.arguments == ArgumentsOf(events[j + 1..], i)
  }

  ghost predicate CompletedBlock(events: seq<Json>, i: nat, j: nat, k: nat, call: Tool) {
    j < k < |events| && Closes(events[k], i) && OpenSince(events[..k], i, j, call)
  }

  /** Block `i` was opened and neither closed nor opened again since. */
  ghost predicate IsOpen(events: seq<Json>, i: nat) {
    exists j: nat :: j < |events| && Opens(events[j], i) && Untouched(events, i, j)
  }

  predicate Untouched(events: seq<Json>, i: nat, j: nat) {
    forall k :: j < k < |events| ==> !Opens(events[k], i) && !Closes(events[k], i)
  }

  ghost predicate ClosesOpen(before: seq<Json>, event: Json) {
    Closes(event, IndexOf(event)) && IsOpen(before, IndexOf(event))
  }

  /** The events that close an open block, in order. */
  ghost function Closings(events: seq<Json>): (ks: seq<nat>)
    ensures forall m :: 0 <= m < |ks| ==> ks[m] < |events|
  {
    if events == [] then []
    else
      var before := events[..|events| - 1];
      Closings(before) + (if ClosesOpen(before, events[|before|]) then [|before|] else [])
  }

  /** The calls of the ToolCallCompleted events, in order. */
  function CompletedCalls(sent: seq<Sent>): seq<Tool> {
    if sent == [] then []
    else CompletedCalls(sent[..|sent| - 1]) + (if sent[|sent| - 1].ToolCallCompleted? then [sent[|sent| - 1].call] else [])
  }

  /** `call` is the block that event `k` closes. */
  ghost predicate CompletedAt(events: seq<Json>, k: nat, call: Tool) {
    exists i, j :: CompletedBlock(events, i, j, k, call)
  }

  /** One completion for each closed block, in closing order, and each is of the block closed there. */
  ghost predicate InClosingOrder(seen: seq<Json>, calls: seq<Tool>) {
    && |calls| == |Closings(seen)|
    && forall m :: 0 <= m < |calls| ==> CompletedAt(seen, Closings(seen)[m], calls[m])
  }

  lemma OpenExtends(events: seq<Json>, event: Json, i: nat)
    ensures IsOpen(events + [event], i) <==> Opens(event, i) || (IsOpen(events, i) && !Closes(event, i))
  {
    var after := events + [event];
    if Opens(event, i) {
      assert after[|events|] == event && Untouched(after, i, |events|);
    } else if j: nat :| j < |events| && Opens(events[j], i) && Untouched(events, i, j) && !Closes(event, i) {
      assert after[j] == events[j] && Untouched(after, i, j);
    } else if IsOpen(after, i) {
      var j: nat :| j < |after| && Opens(after[j], i) && Untouched(after, i, j);
      assert after[|events|] == event && j < |events| && events[j] == after[j];
      assert Untouched(events, i, j) by { assert forall k :: j < k < |events| ==> events[k] == after[k]; }
    }
  }

  lemma ClosingsAppend(events: seq<Json>, event: Json)
    ensures Closings(events + [event]) == Closings(events) + (if ClosesOpen(events, event) then [|events|] else [])
  {
    assert (events + [event])[..|events|] == events;
  }

  lemma CompletedCallsAppend(sent: seq<Sent>, e: Sent)
    ensures CompletedCalls(sent + [e]) == CompletedCalls(sent) + (if e.ToolCallCompleted? then [e.call] else [])
  {
    assert (sent + [e])[..|sent|] == sent;
  }

  /** The next event keeps the order if it completes a call exactly when it closes an open block. */
  lemma OrderExtends(seen: seq<Json>, calls: seq<Tool>, event: Json, completed: seq<Tool>)
    requires InClosingOrder(seen, calls)
    requires if ClosesOpen(seen, event)
             then |completed| == 1 && CompletedAt(seen + [event], |seen|, completed[0])
             else completed == []
    ensures InClosingOrder(seen + [event], calls + completed)
  {
    ClosingsAppend(seen, event);
    var ks, all := Closings(seen + [event]), calls + completed;
    forall m | 0 <= m < |all| ensures CompletedAt(seen + [event], ks[m], all[m]) {
      if m < |calls| {
        assert all[m] == calls[m] && ks[m] == Closings(seen)[m];
        var i, j :| CompletedBlock(seen, i, j, ks[m], calls[m]);
        CompletedExtends(seen, event, i, j, ks[m], calls[m]);
      } else {
        assert all[m] == completed[0] && ks[m] == |seen|;
      }
    }
  }

  ghost predicate Faithful(st: Fold) {
    && st.text == SentText(st.sent) && st.usage == ReportedUsage(st.sent)
    && (forall i :: IsOpen(st.seen, i) ==> i in st.tools)
    && InClosingOrder(st.seen, CompletedCalls(st.sent))
    && (forall i :: i in st.tools ==> exists j :: OpenSince(st.seen, i, j, st.tools[i]))
    && (forall e :: e in st.sent && e.ToolCallCompleted? ==>
          exists i, j, k :: CompletedBlock(st.seen, i, j, k, e.call))
  }

  lemma SentTextAppend(sent: seq<Sent>, e: Sent)
    ensures SentText(sent + [e]) == SentText(sent) + (if e.TextDelta? then e.text else "")
    ensures ReportedUsage(sent + [e]) == if e.UsageUpdated? then e.usage else ReportedUsage(sent)
    ensures !e.ToolCallCompleted? ==> CompletedCalls(sent + [e]) == CompletedCalls(sent)
  {
    assert (sent + [e])[..|sent|] == sent;
  }

  /** An open call stays open over an event that neither opens nor closes its block. */
  lemma OpenSinceExtends(events: seq<Json>, event: Json, i: nat, j: nat, call: Tool)
    requires OpenSince(events, i, j, call) && !Opens(event, i) && !Closes(event, i)
    ensures OpenSince(events + [event], i, j, call.(arguments := call.arguments + DeltaFor(event, i)))
  {
    var after := (events + [event])[j + 1..];
    assert after == events[j + 1..] + [event];
    assert after[..|after| - 1] == events[j + 1..];
  }

  lemma CompletedExtends(events: seq<Json>, event: Json, i: nat, j: nat, k: nat, call: Tool)
    requires CompletedBlock(events, i, j, k, call)
    ensures CompletedBlock(events + [event], i, j, k, call)
  {
    assert (events + [event])[..k] == events[..k];
  }

  /** How an event moves the text, the usage, the open calls and the events sent. */
  ghost predicate Moves(event: Json, st: Fold, st': Fold) {
    var i := IndexOf(event);
    && st'.seen == st.seen + [event]
    && (st'.usage == if st'.sent != st.sent && st'.sent != [] && st'.sent[|st'.sent| - 1].UsageUpdated?
                     then st'.sent[|st'.sent| - 1].usage else st.usage)
    && if st'.sent == st.sent then
         st'.text == st.text && st'.tools == st.tools && !Opens(event, i)
         && (DeltaFor(event, i) != "" ==> i !in st.tools) && (Closes(event, i) ==> i !in st.tools)
       else
         |st'.sent| == |st.sent| + 1 && st'.sent == st.sent + [st'.sent[|st.sent|]] &&
         match st'.sent[|st.sent|]
         case TextDelta(text) =>
           st'.text == st.text + text && st'.tools == st.tools && !Opens(event, i) && !Closes(event, i) && DeltaFor(event, i) == ""
         case ToolCallStarted(_, _) =>
           st'.text == st.text && Opens(event, i) && st'.tools == st.tools[i := StartedTool(event).value]
         case ToolCallArgumentsDelta(_, _) =>
           st'.text == st.text && i in st.tools && !Opens(event, i) && !Closes(event, i) &&
           st'.tools == st.tools[i := st.tools[i].(arguments := st.tools[i].arguments + DeltaFor(event, i))]
         case ToolCallCompleted(call) =>
           st'.text == st.text && Closes(event, i) && i in st.tools && call == st.tools[i] && st'.tools == st.tools - {i}
         case UsageUpdated(_) =>
           st'.text == st.text && st'.tools == st.tools && !Opens(event, i) && !Closes(event, i) && DeltaFor(event, i) == ""
         case ResponseCancelled => false
  }

  lemma DeltaMoves(event: Json, st: Fold)
    requires TypeOf(Some(event)) == "content_block_delta"
    ensures Moves(event, st, HandleDelta(event, st.(seen := st.seen + [event])).0)
  {
  }

  lemma EventMoves(env: Env, event: Json, st: Fold)
    ensures Moves(event, st, HandleEvent(env, event, st.(seen := st.seen + [event])).0)
  {
    if TypeOf(Some(event)) == "content_block_delta" { DeltaMoves(event, st); }
  }

  /** A call open after an event was opened by it, or was open before and gained what it carried. */
  lemma OpenCallAfter(event: Json, st: Fold, st': Fold, i: nat)
    requires Moves(event, st, st') && i in st'.tools
    ensures
      || (Opens(event, i) && st'.tools[i] == StartedTool(event).value)
      || (!Opens(event, i) && !Closes(event, i) && i in st.tools
          && st'.tools[i] == st.tools[i].(arguments := st.tools[i].arguments + DeltaFor(event, i)))
  {
    if i in st.tools { assert st.tools[i].arguments + "" == st.tools[i].arguments; }
  }

  lemma ToolsStayFaithful(event: Json, st: Fold, st': Fold, i: nat)
    requires i in st.tools ==> exists j :: OpenSince(st.seen, i, j, st.tools[i])
    requires i in st'.tools && st'.seen == st.seen + [event]
    requires
      || (Opens(event, i) && st'.tools[i] == StartedTool(event).value)
      || (!Opens(event, i) && !Closes(event, i) && i in st.tools
          && st'.tools[i] == st.tools[i].(arguments := st.tools[i].arguments + DeltaFor(event, i)))
    ensures exists j :: OpenSince(st'.seen, i, j, st'.tools[i])
  {
    if Opens(event, i) {
      var j := |st.seen|;
      assert (st.seen + [event])[j + 1..] == [];
      assert OpenSince(st'.seen, i, j, st'.tools[i]);
    } else {
      var j :| OpenSince(st.seen, i, j, st.tools[i]);
      OpenSinceExtends(st.seen, event, i, j, st.tools[i]);
    }
  }

  lemma CompletionsStayFaithful(event: Json, st: Fold, st': Fold, e: Sent)
    requires Faithful(st) && st'.seen == st.seen + [event] && e.ToolCallCompleted?
    requires e in st.sent || (Closes(event, IndexOf(event)) && IndexOf(event) in st.tools && e.call == st.tools[IndexOf(event)])
    ensures exists i, j, k :: CompletedBlock(st'.seen, i, j, k, e.call)
  {
    if e in st.sent {
      var i, j, k :| CompletedBlock(st.seen, i, j, k, e.call);
      CompletedExtends(st.seen, event, i, j, k, e.call);
    } else {
      var i := IndexOf(event);
      var j :| OpenSince(st.seen, i, j, st.tools[i]);
      assert (st.seen + [event])[..|st.seen|] == st.seen;
      assert CompletedBlock(st'.seen, i, j, |st.seen|, e.call);
    }
  }

  lemma OpenStaysHeld(event: Json, st: Fold, st': Fold)
    requires Faithful(st) && Moves(event, st, st')
    ensures forall i :: IsOpen(st'.seen, i) ==> i in st'.tools
  {
    forall i | IsOpen(st'.seen, i) ensures i in st'.tools {
      OpenExtends(st.seen, event, i);
      HeldAfter(event, st, st', i);
    }
  }

  lemma HeldAfter(event: Json, st: Fold, st': Fold, i: nat)
    requires Moves(event, st, st') && (Opens(event, i) || (i in st.tools && !Closes(event, i)))
    ensures i in st'.tools
  {
  }

  lemma BlockClosed(event: Json, st: Fold, i: nat)
    requires Faithful(st) && Closes(event, i) && i in st.tools
    ensures ClosesOpen(st.seen, event) && CompletedAt(st.seen + [event], |st.seen|, st.tools[i])
  {
    var j :| OpenSince(st.seen, i, j, st.tools[i]);
    assert Untouched(st.seen, i, j);
    assert (st.seen + [event])[..|st.seen|] == st.seen;
    assert CompletedBlock(st.seen + [event], i, j, |st.seen|, st.tools[i]);
  }

  /** What an event completes: the open block it closes, or nothing. */
  lemma MovesComplete(event: Json, st: Fold, st': Fold) returns (completed: seq<Tool>)
    requires Faithful(st) && Moves(event, st, st')
    ensures CompletedCalls(st'.sent) == CompletedCalls(st.sent) + completed
    ensures if ClosesOpen(st.seen, event) then completed == [st.tools[IndexOf(event)]] && IndexOf(event) in st.tools else completed == []
  {
    completed := [];
    if st'.sent != st.sent {
      var e := st'.sent[|st.sent|];
      CompletedCallsAppend(st.sent, e);
      if e.ToolCallCompleted? {
        BlockClosed(event, st, IndexOf(event));
        completed := [e.call];
      }
    }
  }

  /** An event sends a completion exactly when it closes an open block. */
  lemma OrderIsKept(event: Json, st: Fold, st': Fold)
    requires Faithful(st) && Moves(event, st, st')
    ensures InClosingOrder(st'.seen, CompletedCalls(st'.sent))
  {
    var completed := MovesComplete(event, st, st');
    if ClosesOpen(st.seen, event) { BlockClosed(event, st, IndexOf(event)); }
    OrderExtends(st.seen, CompletedCalls(st.sent), event, completed);
  }

  lemma EventStaysFaithful(env: Env, event: Json, st: Fold)
    requires Faithful(st)
    ensures Faithful(HandleEvent(env, event, st.(seen := st.seen + [event])).0)
  {
    var st' := HandleEvent(env, event, st.(seen := st.seen + [event])).0;
    EventMoves(env, event, st);
    OpenStaysHeld(event, st, st');
    OrderIsKept(event, st, st');
    if st'.sent != st.sent { SentTextAppend(st.sent, st'.sent[|st.sent|]); }
    forall i | i in st'.tools ensures exists j :: OpenSince(st'.seen, i, j, st'.tools[i]) {
      OpenCallAfter(event, st, st', i);
      ToolsStayFaithful(event, st, st', i);
    }
    forall e | e in st'.sent && e.ToolCallCompleted?
      ensures exists i, j, k :: CompletedBlock(st'.seen, i, j, k, e.call)
    {
      CompletionsStayFaithful(event, st, st', e);
    }
  }

  lemma CountingStaysFaithful(st: Fold)
    requires Faithful(st)
    ensures Faithful(st.(events := st.events + 1))
  {
  }

  lemma DataStaysFaithful(env: Env, data: string, st: Fold)
    requires Faithful(st)
    ensures Faithful(HandleData(env, data, st).0)
  {
    var counted, event := st.(events := st.events + 1), env.parse(RustTrim(data));
    CountingStaysFaithful(st);
    if RustTrim(data) == "" {
      assert HandleData(env, data, st).0 == st;
    } else if counted.events > MAX_STREAM_EVENTS || event.None? {
      assert HandleData(env, data, st).0 == counted;
    } else {
      EventStaysFaithful(env, event.value, counted);
      assert HandleData(env, data, st) == HandleEvent(env, event.value, counted.(seen := counted.seen + [event.value]));
    }
  }

  lemma LineStaysFaithful(env: Env, bytes: seq<byte>, st: Fold)
    requires Faithful(st)
    ensures Faithful(HandleLine(env, bytes, st).0)
  {
    var data := Payload(env, bytes);
    if data.Some? { DataStaysFaithful(env, data.value, st); }
  }

  lemma {:induction false} LinesStayFaithful(env: Env, lines: seq<seq<byte>>, st: Fold)
    requires Faithful(st)
    ensures Faithful(HandleLines(env, lines, st).0)
    decreases |lines|
  {
    if lines != [] {
      LineStaysFaithful(env, lines[0], st);
      LinesStayFaithful(env, lines[1..], HandleLine(env, lines[0], st).0);
    }
  }

  lemma {:induction false} DriveStaysFaithful(env: Env, items: seq<Item>, buf: seq<byte>, st: Fold)
    requires Faithful(st)
    ensures var (st', answer) := Drive(env, items, buf, st);
            Faithful(st') && (answer.Ok? ==> answer.value.0 == SentText(st'.sent) && answer.value.1 == ReportedUsage(st'.sent))
    decreases |items|
  {
    if items == [] {
      LineStaysFaithful(env, buf, st);
    } else if items[0].Chunk? {
      var (lines, rest) := SplitLines(buf + items[0].bytes);
      LinesStayFaithful(env, lines, st);
      var (st', v) := HandleLines(env, lines, st);
      if v.Continue? { DriveStaysFaithful(env, items[1..], rest, st'); }
    } else if items[0].CancelRequested? {
      SentTextAppend(st.sent, ResponseCancelled);
    }
  }

  /** Whatever the transport delivers and however the stream ends: a returned text is the concatenation of
      the TextDelta events and the usage the one reported last. Every ToolCallCompleted carries the id and
      name of a block that was opened and then closed, with exactly the argument deltas in between, and
      every event that closes an open block yields exactly one, in closing order. */
  lemma EventsAreFaithful(env: Env, model: string, items: seq<Item>)
    ensures var (st, answer) := Drive(env, items, [], Initial(model));
      && (answer.Ok? ==> answer.value.0 == SentText(st.sent) && answer.value.1 == ReportedUsage(st.sent))
      && (forall e :: e in st.sent && e.ToolCallCompleted? ==>
            exists i, j, k :: CompletedBlock(st.seen, i, j, k, e.call))
      && |CompletedCalls(st.sent)| == |Closings(st.seen)|
      && (forall m :: 0 <= m < |Closings(st.seen)| ==>
            CompletedAt(st.seen, Closings(st.seen)[m], CompletedCalls(st.sent)[m]))
  {
    DriveStaysFaithful(env, items, [], Initial(model));
  }

  // ------------------------------------------------------------ the loops of the provider

  /** The locals of one streaming response. */
  class ChatStream {
    const env: Env
    var buf: seq<byte>
    var fullText: string
    var usage: Usage
    var model: string
    var events: nat
    var activeTools: map<nat, Tool>
    var sent: seq<Sent>
    ghost var seen: seq<Json>

    ghost function View(): Fold
      reads this
    {
      Fold(fullText, usage, model, events, activeTools, sent, seen)
    }

    constructor (env: Env, model: string)
      ensures this.env == env && View() == Initial(model) && buf == []
    {
      this.env := env;
      buf, fullText, usage, this.model := [], "", Usage(None, None, None), model;
      events, activeTools, sent, seen := 0, map[], [], [];
    }

    method HandleContentBlockDelta(event: Json) returns (verdict: Verdict)
      requires TypeOf(Some(event)) == "content_block_delta"
      modifies this`fullText, this`activeTools, this`sent
      ensures (View(), verdict) == HandleDelta(event, old(View()))
    {
      var text := StreamTextDelta(event);
      if text.Some? {
        if Utf8Len(fullText) + Utf8Len(text.value) > MAX_STREAM_TEXT_BYTES {
          return Fail(TextTooLong);
        }
        fullText := fullText + text.value;
        sent := sent + [TextDelta(text.value)];
        return Continue;
      }
      var partial := PartialJson(event);
      var index := IndexOf(event);
      if partial.Some? && index in activeTools {
        var tool := activeTools[index].(arguments := activeTools[index].arguments + partial.value);
        activeTools := activeTools[index := tool];
        sent := sent + [ToolCallArgumentsDelta(tool.callId, partial.value)];
      }
      return Continue;
    }

    method HandleParsedEvent(event: Json) returns (verdict: Verdict)
      modifies this`fullText, this`usage, this`model, this`activeTools, this`sent
      ensures (View(), verdict) == HandleEvent(env, event, old(View()))
    {
      match TypeOf(Some(event))
      case "error" =>
        var message := AsStr(In(Field(event, "error"), "message"));
        if message.None? { message := AsStr(Field(event, "message")); }
        return Fail(Provider(env.redact(Or(message, "Anthropic stream error"))));
      case "message_start" =>
        var message := Field(event, "message");
        var name := AsStr(In(message, "model"));
        if name.Some? { model := name.value; }
        if In(message, "usage").Some? {
          usage := UsageFromValue(In(message, "usage"));
          sent := sent + [UsageUpdated(usage)];
        }
        return Continue;
      case "content_block_start" =>
        var tool := StartedTool(event);
        if tool.Some? {
          activeTools := activeTools[IndexOf(event) := tool.value];
          sent := sent + [ToolCallStarted(tool.value.callId, tool.value.name)];
        }
        return Continue;
      case "content_block_delta" =>
        verdict := HandleContentBlockDelta(event);
      case "content_block_stop" =>
        var index := IndexOf(event);
        if index in activeTools {
          var tool := activeTools[index];
          activeTools := activeTools - {index};
          sent := sent + [ToolCallCompleted(tool)];
        }
        return Continue;
      case "message_delta" =>
        if Field(event, "usage").Some? {
          var next := UsageFromValue(Field(event, "usage"));
          if next.prompt.Some? { usage := usage.(prompt := next.prompt); }
          if next.completion.Some? { usage := usage.(completion := next.completion); }
          var fallback := if next.total.Some? then next.total else usage.total;
          usage := usage.(total := Total(usage.prompt, usage.completion, fallback));
          sent := sent + [UsageUpdated(usage)];
        }
        return Continue;
      case "message_stop" =>
        return Stop;
      case _ =>
        return Continue;
    }

    method HandleSseData(data: string) returns (verdict: Verdict)
      modifies this`fullText, this`usage, this`model, this`events, this`activeTools, this`sent, this`seen
      ensures (View(), verdict) == HandleData(env, data, old(View()))
    {
      var payload := RustTrim(data);
      if payload == "" {
        return Continue;
      }
      events := events + 1;
      if events > MAX_STREAM_EVENTS {
        return Fail(TooManyEvents);
      }
      var event := env.parse(payload);
      if event.None? {
        return Continue;
      }
      seen := seen + [event.value];
      verdict := HandleParsedEvent(event.value);
    }

    method HandleRawLine(bytes: seq<byte>) returns (verdict: Verdict)
      modifies this`fullText, this`usage, this`model, this`events, this`activeTools, this`sent, this`seen
      ensures (View(), verdict) == HandleLine(env, bytes, old(View()))
    {
      var line := RustTrim(env.decode(bytes));
      if line == "" || line[0] == ':' {
        return Continue;
      }
      if !("data:" <= line) {
        return Continue;
      }
      verdict := HandleSseData(line[5..]);
    }

    /** Takes complete lines off the front of the buffer until none is left or one ends the stream. */
    method DrainLines() returns (verdict: Verdict)
      modifies this
      ensures (View(), verdict) == HandleLines(env, SplitLines(old(buf)).0, old(View()))
      ensures verdict.Continue? ==> buf == SplitLines(old(buf)).1
    {
      verdict := Continue;
      var idx := FirstNewline(buf);
      while idx < |buf|
        invariant idx == FirstNewline(buf) && verdict.Continue?
        invariant HandleLines(env, SplitLines(old(buf)).0, old(View())) == HandleLines(env, SplitLines(buf).0, View())
        invariant SplitLines(old(buf)).1 == SplitLines(buf).1
        decreases |buf|
      {
        var line := buf[..idx + 1];
        assert SplitLines(buf).0[0] == line && SplitLines(buf).0[1..] == SplitLines(buf[idx + 1..]).0;
        buf := buf[idx + 1..];
        verdict := HandleRawLine(line);
        if !verdict.Continue? {
          return;
        }
        idx := FirstNewline(buf);
      }
    }

    method ConsumeSseChatStream(items: seq<Item>) returns (answer: Answer)
      modifies this
      ensures (View(), answer) == Drive(env, items, old(buf), old(View()))
    {
      var i := 0;
      while i < |items|
        invariant i <= |items|
        invariant Drive(env, items[i..], buf, View()) == Drive(env, items, old(buf), old(View()))
      {
        assert items[i..][1..] == items[i + 1..];
        match items[i] {
          case CancelRequested =>
            sent := sent + [ResponseCancelled];
            return Err(Cancelled);
          case TransportError(message) =>
            return Err(Http(env.redact(message)));
          case Chunk(chunk) =>
            if |buf| + |chunk| > MAX_STREAM_TEXT_BYTES {
              return Err(StreamTooLong);
            }
            buf := buf + chunk;
            var verdict := DrainLines();
            if verdict.Stop? {
              return Ok((fullText, usage, model));
            }
            if verdict.Fail? {
              return Err(verdict.error);
            }
        }
        i := i + 1;
      }
      if buf != [] {
        var verdict := HandleRawLine(buf);
        if verdict.Fail? {
          return Err(verdict.error);
        }
      }
      answer := Ok((fullText, usage, model));
    }
  }
}
