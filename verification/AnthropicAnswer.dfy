/** What a chat stream answers and sends on, read off the JSON it receives and the lines that carry it
    (src-tauri/src/ai/anthropic.rs), without the functions that the provider reads it with. */
module AnthropicAnswer {
  import opened AnthropicStream
  import opened Common

  // ------------------------------------------------------------ text, usage and model

  /** The object has the key with this value. */
  predicate Has(v: Json, key: string, w: Json) { v.Obj? && key in v.fields && v.fields[key] == w }

  /** The value under the key, if `v` is an object that has it. */
  function Under(v: Json, key: string): (w: Option<Json>)
    ensures w.Some? <==> v.Obj? && key in v.fields
    ensures w.Some? ==> Has(v, key, w.value)
  {
    if v.Obj? && key in v.fields then Some(v.fields[key]) else None
  }

  predicate IsTextDelta(event: Json, text: string) {
    && Has(event, "type", Str("content_block_delta")) && Under(event, "delta").Some? && text != ""
    && Has(Under(event, "delta").value, "type", Str("text_delta")) && Has(Under(event, "delta").value, "text", Str(text))
  }

  /** The text an event carries, in terms of the JSON. */
  function TextIn(event: Json): (text: string)
    ensures text != "" ==> IsTextDelta(event, text)
    ensures forall t :: IsTextDelta(event, t) ==> text == t
  {
    if Under(event, "delta").None? || Under(Under(event, "delta").value, "text").None? then ""
    else
      var text := Under(Under(event, "delta").value, "text").value;
      if text.Str? && IsTextDelta(event, text.s) then text.s else ""
  }

  lemma TextDeltaIs(event: Json, text: string)
    ensures StreamTextDelta(event) == Some(text) <==> IsTextDelta(event, text)
    ensures StreamTextDelta(event) == (if TextIn(event) == "" then None else Some(TextIn(event)))
  {
  }

  /** A text delta that fits is appended and sent. */
  lemma TextDeltaIsAppended(env: Env, event: Json, text: string, st: Fold)
    requires IsTextDelta(event, text) && Utf8Len(st.text) + Utf8Len(text) <= MAX_STREAM_TEXT_BYTES
    ensures HandleEvent(env, event, st) == (st.(text := st.text + text, sent := st.sent + [TextDelta(text)]), Continue)
  {
    TextDeltaIs(event, text);
  }

  /** A count in a usage object, cut to 32 bits. */
  function CountIn(usage: Json, key: string): Option<nat> {
    var n := Under(usage, key);
    if n.Some? && n.value.Number? && 0 <= n.value.n < U64 then Some(n.value.n % U32) else None
  }

  function First(a: Option<nat>, b: Option<nat>): Option<nat> { if a.Some? then a else b }

  function SumOr(a: Option<nat>, b: Option<nat>, otherwise: Option<nat>): Option<nat> {
    if a.Some? && b.Some? then Some((a.value + b.value) % U32) else otherwise
  }

  /** The usage after an event: a `message_start` replaces it, a `message_delta` updates the counts that it
      gives, and the total is their sum once both are known. */
  function UsageAfter(usage: Usage, event: Json): Usage {
    if Has(event, "type", Str("message_start")) && Under(event, "message").Some?
       && Under(Under(event, "message").value, "usage").Some? then
      var given := Under(Under(event, "message").value, "usage").value;
      var input, output := CountIn(given, "input_tokens"), CountIn(given, "output_tokens");
      Usage(input, output, SumOr(input, output, None))
    else if Has(event, "type", Str("message_delta")) && Under(event, "usage").Some? then
      var given := Under(event, "usage").value;
      var input := First(CountIn(given, "input_tokens"), usage.prompt);
      var output := First(CountIn(given, "output_tokens"), usage.completion);
      Usage(input, output, SumOr(input, output, usage.total))
    else usage
  }

  function ModelAfter(model: string, event: Json): string {
    if Has(event, "type", Str("message_start")) && Under(event, "message").Some? then
      var name := Under(Under(event, "message").value, "model");
      if name.Some? && name.value.Str? then name.value.s else model
    else model
  }

  function TextOver(events: seq<Json>): string {
    if events == [] then "" else TextOver(events[..|events| - 1]) + TextIn(events[|events| - 1])
  }

  function UsageOver(events: seq<Json>): Usage {
    if events == [] then Usage(None, None, None) else UsageAfter(UsageOver(events[..|events| - 1]), events[|events| - 1])
  }

  function ModelOver(model: string, events: seq<Json>): string {
    if events == [] then model else ModelAfter(ModelOver(model, events[..|events| - 1]), events[|events| - 1])
  }

  /** Text, usage and model are those of the events received. */
  predicate TellsEvents(model: string, st: Fold) {
    st.text == TextOver(st.seen) && st.usage == UsageOver(st.seen) && st.model == ModelOver(model, st.seen)
  }

  /** What one event does to text, usage and model, unless it fails. */
  lemma EventTells(env: Env, event: Json, st: Fold)
    requires !HandleEvent(env, event, st).1.Fail?
    ensures var st' := HandleEvent(env, event, st).0;
            && st'.text == st.text + TextIn(event) && st'.usage == UsageAfter(st.usage, event)
            && st'.model == ModelAfter(st.model, event) && st'.seen == st.seen
  {
    TextDeltaIs(event, TextIn(event));
    KindIs(event);
    if Has(event, "type", Str("message_start")) {
      StartTells(env, event, st);
    } else if Has(event, "type", Str("message_delta")) {
      DeltaTells(env, event, st);
    }
  }

  lemma KindIs(event: Json)
    ensures forall kind :: kind != "" ==> (TypeOf(Some(event)) == kind <==> Has(event, "type", Str(kind)))
  {
  }

  lemma StartTells(env: Env, event: Json, st: Fold)
    requires Has(event, "type", Str("message_start"))
    ensures var st' := HandleEvent(env, event, st).0;
            st'.text == st.text && st'.usage == UsageAfter(st.usage, event) && st'.model == ModelAfter(st.model, event) && st'.seen == st.seen
    ensures TextIn(event) == ""
  {
    assert "message_start" != "content_block_delta" by { assert |"message_start"| == 13 && |"content_block_delta"| == 19; }
  }

  lemma DeltaTells(env: Env, event: Json, st: Fold)
    requires Has(event, "type", Str("message_delta"))
    ensures var st' := HandleEvent(env, event, st).0;
            st'.text == st.text && st'.usage == UsageAfter(st.usage, event) && st'.model == ModelAfter(st.model, event) && st'.seen == st.seen
    ensures TextIn(event) == ""
  {
    assert |"message_delta"| == 13 && |"content_block_delta"| == 19 && |"content_block_start"| == 19 && |"content_block_stop"| == 18;
  }

  lemma SeenTells(env: Env, model: string, event: Json, st: Fold)
    requires TellsEvents(model, st)
    requires !HandleEvent(env, event, st.(events := st.events + 1, seen := st.seen + [event])).1.Fail?
    ensures TellsEvents(model, HandleEvent(env, event, st.(events := st.events + 1, seen := st.seen + [event])).0)
  {
    EventTells(env, event, st.(events := st.events + 1, seen := st.seen + [event]));
    assert (st.seen + [event])[..|st.seen|] == st.seen;
  }

  lemma DataTells(env: Env, model: string, data: string, st: Fold)
    requires TellsEvents(model, st) && !HandleData(env, data, st).1.Fail?
    ensures TellsEvents(model, HandleData(env, data, st).0)
  {
    var event := env.parse(RustTrim(data));
    if RustTrim(data) == "" {
      assert HandleData(env, data, st).0 == st;
    } else if event.None? {
      assert HandleData(env, data, st).0 == st.(events := st.events + 1);
    } else {
      var counted := st.(events := st.events + 1, seen := st.seen + [event.value]);
      assert HandleData(env, data, st) == HandleEvent(env, event.value, counted);
      SeenTells(env, model, event.value, st);
    }
  }

  lemma {:induction false} LinesTell(env: Env, model: string, lines: seq<seq<byte>>, st: Fold)
    requires TellsEvents(model, st) && !HandleLines(env, lines, st).1.Fail?
    ensures TellsEvents(model, HandleLines(env, lines, st).0)
    decreases |lines|
  {
    if lines != [] {
      LineTells(env, model, lines[0], st);
      var (st', v) := HandleLine(env, lines[0], st);
      if v.Continue? { LinesTell(env, model, lines[1..], st'); }
    }
  }

  lemma LineTells(env: Env, model: string, bytes: seq<byte>, st: Fold)
    requires TellsEvents(model, st) && !HandleLine(env, bytes, st).1.Fail?
    ensures TellsEvents(model, HandleLine(env, bytes, st).0)
  {
    var data := Payload(env, bytes);
    if data.Some? { DataTells(env, model, data.value, st); }
  }

  lemma {:induction false} DriveTells(env: Env, model: string, items: seq<Item>, buf: seq<byte>, st: Fold)
    requires TellsEvents(model, st)
    ensures var (st', answer) := Drive(env, items, buf, st);
            answer.Ok? ==> TellsEvents(model, st') && answer.value == (st'.text, st'.usage, st'.model)
    decreases |items|
  {
    if items == [] {
      if buf != [] && !HandleLine(env, buf, st).1.Fail? { LineTells(env, model, buf, st); }
    } else if items[0].Chunk? {
      var (lines, rest) := SplitLines(buf + items[0].bytes);
      var (st', v) := HandleLines(env, lines, st);
      if !v.Fail? { LinesTell(env, model, lines, st); }
      if v.Continue? { DriveTells(env, model, items[1..], rest, st'); }
    }
  }

  /** The answer of a stream that ends well, read off the JSON of the events received: the text is the
      concatenation of the non-empty texts of its text deltas, the usage is what `message_start` and
      `message_delta` report, field by field, and the model is the one `message_start` names. */
  lemma AnswerTellsEvents(env: Env, model: string, items: seq<Item>)
    ensures var (st, answer) := Drive(env, items, [], Initial(model));
            answer.Ok? ==> answer.value == (TextOver(st.seen), UsageOver(st.seen), ModelOver(model, st.seen))
  {
    DriveTells(env, model, items, [], Initial(model));
  }

  // ------------------------------------------------------------ tool calls, ends and errors, read off the JSON

  predicate IsToolStart(event: Json, callId: string, name: string) {
    && Has(event, "type", Str("content_block_start")) && Under(event, "content_block").Some? && callId != "" && name != ""
    && var block := Under(event, "content_block").value;
       Has(block, "type", Str("tool_use")) && Has(block, "id", Str(callId)) && Has(block, "name", Str(name))
  }

  predicate IsArgumentDelta(event: Json, text: string) {
    && Has(event, "type", Str("content_block_delta")) && Under(event, "delta").Some?
    && Has(Under(event, "delta").value, "type", Str("input_json_delta"))
    && Has(Under(event, "delta").value, "partial_json", Str(text))
  }

  /** The block an event is about; the first one if it does not say. */
  ghost predicate IsAbout(event: Json, i: nat) {
    if exists n :: Has(event, "index", Number(n)) && 0 <= n < U64 then Has(event, "index", Number(i)) else i == 0
  }

  lemma IndexIs(event: Json, i: nat)
    ensures IndexOf(event) == i <==> IsAbout(event, i)
  {
    if n :| Has(event, "index", Number(n)) && 0 <= n < U64 { }
  }

  /** The blocks that the law on completed calls speaks of are those of the JSON. */
  lemma BlocksAreTold(event: Json, i: nat)
    ensures Opens(event, i) <==> IsAbout(event, i) && exists callId, name :: IsToolStart(event, callId, name)
    ensures forall callId, name :: IsToolStart(event, callId, name) ==> StartedTool(event) == Some(Tool(callId, name, ""))
    ensures Closes(event, i) <==> IsAbout(event, i) && Has(event, "type", Str("content_block_stop"))
    ensures forall text :: IsArgumentDelta(event, text) && IsAbout(event, i) ==> DeltaFor(event, i) == text
    ensures DeltaFor(event, i) != "" ==> IsArgumentDelta(event, DeltaFor(event, i)) && IsAbout(event, i)
  {
    IndexIs(event, i);
    KindIs(event);
    ToolStartIs(event);
    ArgumentsAre(event);
  }

  lemma ToolStartIs(event: Json)
    ensures StartedTool(event).Some? ==> IsToolStart(event, StartedTool(event).value.callId, StartedTool(event).value.name)
    ensures forall callId, name :: IsToolStart(event, callId, name) ==> StartedTool(event) == Some(Tool(callId, name, ""))
  {
  }

  lemma ArgumentsAre(event: Json)
    ensures forall text :: IsArgumentDelta(event, text) ==> PartialJson(event) == Some(text) && StreamTextDelta(event).None?
    ensures PartialJson(event).Some? ==> IsArgumentDelta(event, PartialJson(event).value)
  {
    assert |"input_json_delta"| == 16 && |"text_delta"| == 10;
  }

  /** What is sent on for a tool call as it comes in. */
  lemma ToolCallIsSent(env: Env, event: Json, i: nat, st: Fold)
    requires IsAbout(event, i)
    ensures forall callId, name :: IsToolStart(event, callId, name) ==>
              HandleEvent(env, event, st)
                == (st.(tools := st.tools[i := Tool(callId, name, "")], sent := st.sent + [ToolCallStarted(callId, name)]), Continue)
    ensures forall text :: IsArgumentDelta(event, text) && i in st.tools ==>
              HandleEvent(env, event, st)
                == (st.(tools := st.tools[i := st.tools[i].(arguments := st.tools[i].arguments + text)],
                        sent := st.sent + [ToolCallArgumentsDelta(st.tools[i].callId, text)]), Continue)
    ensures Has(event, "type", Str("content_block_stop")) && i in st.tools ==>
              HandleEvent(env, event, st) == (st.(tools := st.tools - {i}, sent := st.sent + [ToolCallCompleted(st.tools[i])]), Continue)
  {
    IndexIs(event, i);
    ToolStartIs(event);
    ArgumentsAre(event);
    assert |"content_block_start"| == 19 && |"content_block_delta"| == 19 && |"content_block_stop"| == 18;
    assert "content_block_start"[14] == 's' && "content_block_delta"[14] == 'd';
  }

  /** The message of an error event: its own, or that of the event, or a fixed one. */
  ghost predicate ErrorSays(event: Json, message: string) {
    if Under(event, "error").Some? && (exists m :: Has(Under(event, "error").value, "message", Str(m))) then
      Has(Under(event, "error").value, "message", Str(message))
    else if exists m :: Has(event, "message", Str(m)) then Has(event, "message", Str(message))
    else message == "Anthropic stream error"
  }

  lemma MessagesAreFound(event: Json)
    ensures forall message :: ErrorSays(event, message) ==>
              message == Or(if AsStr(In(Field(event, "error"), "message")).Some? then AsStr(In(Field(event, "error"), "message"))
                            else AsStr(Field(event, "message")), "Anthropic stream error")
  {
    if Under(event, "error").Some? {
      if m :| Has(Under(event, "error").value, "message", Str(m)) { }
    }
    if m :| Has(event, "message", Str(m)) { }
  }

  /** A stop event ends the stream, an error event fails it with its message. */
  lemma StreamEnds(env: Env, event: Json, st: Fold)
    ensures Has(event, "type", Str("message_stop")) ==> HandleEvent(env, event, st) == (st, Stop)
    ensures forall message :: Has(event, "type", Str("error")) && ErrorSays(event, message) ==>
              HandleEvent(env, event, st) == (st, Fail(Provider(env.redact(message))))
  {
    KindIs(event);
    MessagesAreFound(event);
    assert |"message_stop"| == 12 && |"message_start"| == 13 && |"message_delta"| == 13 && |"error"| == 5;
  }

  /** Nothing else does, but a text delta that does not fit. */
  lemma NothingElseEnds(env: Env, event: Json, st: Fold)
    ensures HandleEvent(env, event, st).1.Stop? ==> Has(event, "type", Str("message_stop"))
    ensures HandleEvent(env, event, st).1.Fail? ==>
              || Has(event, "type", Str("error"))
              || (TextIn(event) != "" && Utf8Len(st.text) + Utf8Len(TextIn(event)) > MAX_STREAM_TEXT_BYTES)
  {
    KindIs(event);
    TextDeltaIs(event, TextIn(event));
  }

  // ------------------------------------------------------------ which lines carry an event

  predicate Spaces(s: string) { forall i | 0 <= i < |s| :: IsRustSpace(s[i]) }

  /** No surrounding white space. */
  predicate Snug(s: string) { s != "" && !IsRustSpace(s[0]) && !IsRustSpace(s[|s| - 1]) }

  lemma {:induction false} TrimStartIs(a: string, x: string)
    requires Spaces(a) && (x == "" || !IsRustSpace(x[0]))
    ensures RustTrimStart(a + x) == x
    decreases |a|
  {
    if a == "" {
      assert a + x == x;
    } else {
      assert (a + x)[1..] == a[1..] + x;
      TrimStartIs(a[1..], x);
    }
  }

  lemma {:induction false} TrimIs(a: string, x: string, b: string)
    requires Spaces(a) && Spaces(b) && Snug(x)
    ensures RustTrim(a + x + b) == x
    decreases |b|
  {
    if b == "" {
      assert a + x + b == a + x;
      TrimStartIs(a, x);
    } else {
      assert (a + x + b)[..|a + x + b| - 1] == a + x + b[..|b| - 1];
      TrimIs(a, x, b[..|b| - 1]);
    }
  }

  lemma {:induction false} TrimOfSpaces(a: string)
    requires Spaces(a)
    ensures RustTrim(a) == ""
    decreases |a|
  {
    if a != "" { TrimOfSpaces(a[..|a| - 1]); }
  }

  /** A line that says `data:` and then something carries that, with or without white space around it and
      before the line. */
  lemma DataLineCarries(env: Env, bytes: seq<byte>, a: string, gap: string, x: string, b: string, st: Fold)
    requires Spaces(a) && Spaces(gap) && Snug(x) && Spaces(b) && env.decode(bytes) == a + ("data:" + gap + x) + b
    requires st.events < 50_000
    ensures var counted := st.(events := st.events + 1);
            HandleLine(env, bytes, st) ==
              if env.parse(x).None? then (counted, Continue)
              else HandleEvent(env, env.parse(x).value, counted.(seen := st.seen + [env.parse(x).value]))
  {
    var line := "data:" + gap + x;
    assert line[0] == 'd' && line[|line| - 1] == x[|x| - 1] && Snug(line);
    TrimIs(a, line, b);
    assert line[5..] == gap + x && "data:" <= line;
    TrimIs(gap, x, "");
    assert gap + x + "" == gap + x;
  }

  /** Every other line is passed over: a blank one, a comment, or one of another field. */
  lemma OtherLinesAreSkipped(env: Env, bytes: seq<byte>, a: string, x: string, b: string, st: Fold)
    requires Spaces(a) && Spaces(b) && env.decode(bytes) == a + x + b && (x == "" || (Snug(x) && !("data:" <= x)))
    ensures HandleLine(env, bytes, st) == (st, Continue)
  {
    if x == "" {
      assert a + x + b == a + b && Spaces(a + b);
      TrimOfSpaces(a + b);
    } else {
      TrimIs(a, x, b);
    }
  }

  /** The white space that is cut off: the characters with the Unicode property White_Space. */
  lemma WhiteSpaceIs(c: char)
    ensures IsRustSpace(c) <==>
              var n := c as int;
              0x9 <= n <= 0xD || n in {0x20, 0x85, 0xA0, 0x1680, 0x2028, 0x2029, 0x202F, 0x205F, 0x3000} || 0x2000 <= n <= 0x200A
  {
  }

  /** When the stream ends, an unfinished last line counts like any other, but nothing can follow it. */
  lemma UnfinishedLineCounts(env: Env, buf: seq<byte>, st: Fold)
    requires buf != []
    ensures var (st', v) := HandleLine(env, buf, st);
            Drive(env, [], buf, st) == (st', if v.Fail? then Err(v.error) else Ok((st'.text, st'.usage, st'.model)))
  {
  }

  // ------------------------------------------------------------ the limits

  /** The UTF-8 encoding of a character, section 3 of RFC 3629. */
  function Utf8(c: char): (b: seq<byte>)
    ensures 1 <= |b| <= 4
    ensures |b| == 1 <==> b[0] < 0x80
    ensures |b| == 2 ==> 0xC2 <= b[0] < 0xE0
    ensures |b| == 3 ==> 0xE0 <= b[0] < 0xF0 && (b[0] == 0xE0 ==> b[1] >= 0xA0)
    ensures |b| == 4 ==> 0xF0 <= b[0] && (b[0] == 0xF0 ==> b[1] >= 0x90)
  {
    var n := c as int;
    if n < 0x80 then [n as byte]
    else if n < 0x800 then [(0xC0 + n / 64) as byte, (0x80 + n % 64) as byte]
    else if n < 0x1_0000 then [(0xE0 + n / 4096) as byte, (0x80 + n / 64 % 64) as byte, (0x80 + n % 64) as byte]
    else [(0xF0 + n / 262144) as byte, (0x80 + n / 4096 % 64) as byte, (0x80 + n / 64 % 64) as byte, (0x80 + n % 64) as byte]
  }

  function Encoded(s: string): seq<byte> { if s == "" then [] else Utf8(s[0]) + Encoded(s[1..]) }

  /** The text limit counts the bytes of the encoding. */
  lemma {:induction false} TextIsMeasuredInBytes(s: string)
    ensures Utf8Len(s) == |Encoded(s)|
    decreases |s|
  {
    if s != "" { TextIsMeasuredInBytes(s[1..]); }
  }

  /** A text delta fails the stream exactly when the text would be longer than eight megabytes. */
  lemma TextIsLimited(env: Env, event: Json, text: string, st: Fold)
    requires IsTextDelta(event, text)
    ensures HandleEvent(env, event, st).1 ==
              if |Encoded(st.text)| + |Encoded(text)| > 8_388_608 then Fail(TextTooLong) else Continue
  {
    TextIsMeasuredInBytes(st.text);
    TextIsMeasuredInBytes(text);
    TextDeltaIs(event, text);
  }

  /** Of a stream that begins empty, the line with event number 50001 fails it, whatever it holds. */
  lemma EventsAreLimited(env: Env, bytes: seq<byte>, a: string, gap: string, x: string, b: string, st: Fold)
    requires Spaces(a) && Spaces(gap) && Snug(x) && Spaces(b) && env.decode(bytes) == a + ("data:" + gap + x) + b
    requires st.events >= 50_000
    ensures HandleLine(env, bytes, st) == (st.(events := st.events + 1), Fail(TooManyEvents))
  {
    var line := "data:" + gap + x;
    assert line[0] == 'd' && line[|line| - 1] == x[|x| - 1] && Snug(line);
    TrimIs(a, line, b);
    assert line[5..] == gap + x && "data:" <= line;
    TrimIs(gap, x, "");
    assert gap + x + "" == gap + x;
  }

  lemma NothingIsAnswered(env: Env, model: string)
    ensures Drive(env, [], [], Initial(model)) == (Initial(model), Ok(("", Usage(None, None, None), model)))
    ensures Initial(model).events == 0 && Initial(model).tools == map[] && Initial(model).sent == [] && Initial(model).seen == []
  {
  }

  /** A cancelled stream says so and answers nothing; a transport error is redacted and reported; a chunk
      that makes the unfinished line too long fails the stream. What was sent before stays sent. */
  lemma StreamBreaksOff(env: Env, item: Item, rest: seq<Item>, buf: seq<byte>, st: Fold)
    ensures item.CancelRequested? ==>
              Drive(env, [item] + rest, buf, st) == (st.(sent := st.sent + [ResponseCancelled]), Err(Cancelled))
    ensures item.TransportError? ==> Drive(env, [item] + rest, buf, st) == (st, Err(Http(env.redact(item.message))))
    ensures item.Chunk? && |buf| + |item.bytes| > 8_388_608 ==> Drive(env, [item] + rest, buf, st) == (st, Err(StreamTooLong))
  {
    assert ([item] + rest)[0] == item;
  }
}
