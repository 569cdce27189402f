/**
 The session file: one JSON entry per line, what saving writes and what loading makes of it.

 Printing and parsing JSON text are parameters. Entry identifiers and times come from a counter and a
 clock, so they are parameters too; loading ignores them.
 */
module SessionCodec {
  import opened Conversation
  import opened Json
  import opened JsonText
  import opened Messages
  import opened Wrappers

  datatype ThinkingLevel = Off | Minimal | Low | Medium | High | XHigh | Max

  datatype Model = Model(provider: string, name: string, revision: Option<string>)

  datatype Record = Record(
    id: string,
    timestamp: string,
    cwd: string,
    model: Option<Model>,
    thinking: ThinkingLevel,
    messages: seq<Message>)

  datatype Error =
    | NoHeader
    | NotJson
    | NotAnObject
    | NotASession
    | UnsupportedVersion(version: nat)
    | NotAString(field: string)
    | BadSessionId
    | EmptyCallId
    | UnknownThinking(name: string)
    | UnknownStopReason(name: string)
    | UnknownRole(role: string)
    | NoMessage
    | BadContent

  type Decoded<T> = Result<T, Error>

  // ----- JSON text

  /** Serialized arguments that are not JSON are kept as a JSON string. */
  function ParseOrString(text: Text, t: string): Json {
    if text.parse(t).Some? then text.parse(t).value else Str(t)
  }

  function Canonical(text: Text, t: string): string { text.render(ParseOrString(text, t)) }

  // ----- Names

  function ThinkingName(level: ThinkingLevel): string {
    match level
    case Off => "off" case Minimal => "minimal" case Low => "low" case Medium => "medium"
    case High => "high" case XHigh => "xhigh" case Max => "max"
  }

  function ParseThinking(name: string): Decoded<ThinkingLevel> {
    match name
    case "off" => Ok(Off) case "minimal" => Ok(Minimal) case "low" => Ok(Low) case "medium" => Ok(Medium)
    case "high" => Ok(High) case "xhigh" => Ok(XHigh) case "max" => Ok(Max)
    case _ => Err(UnknownThinking(name))
  }

  function StopReasonName(reason: StopReason): string {
    match reason
    case Stop => "stop" case ToolUse => "toolUse" case Length => "length"
    case Aborted => "aborted" case Cancelled => "cancelled" case Error => "error"
  }

  /** Reasons of recoverable turns are read as settled ones. */
  function ParseStopReason(name: string): Decoded<StopReason> {
    match name
    case "pending" => Ok(Stop) case "deferred" => Ok(Stop) case "stop" => Ok(Stop)
    case "toolUse" => Ok(ToolUse) case "tool_use" => Ok(ToolUse) case "length" => Ok(Length)
    case "aborted" => Ok(Aborted) case "error" => Ok(StopReason.Error) case "cancelled" => Ok(Cancelled)
    case _ => Err(UnknownStopReason(name))
  }

  // ----- Encoding

  function Count(n: nat): Json { Num(Unsigned(n)) }

  function OptionalCount(n: Option<nat>): Json { if n.Some? then Count(n.value) else Null }

  function OptionalString(s: Option<string>): Json { if s.Some? then Str(s.value) else Null }

  function TextBlock(t: string): Json { Obj(map["type" := Str("text"), "text" := Str(t)]) }

  function CallBlock(call: ToolCall, text: Text): Json {
    Obj(map[
      "type" := Str("toolCall"), "id" := Str(call.id), "name" := Str(call.name),
      "arguments" := ParseOrString(text, call.arguments)])
  }

  function CallBlocks(calls: seq<ToolCall>, text: Text): seq<Json> {
    if calls == [] then [] else [CallBlock(calls[0], text)] + CallBlocks(calls[1..], text)
  }

  function Strings(names: seq<string>): seq<Json> {
    if names == [] then [] else [Str(names[0])] + Strings(names[1..])
  }

  function EncodeUsage(u: Usage): Json {
    Obj(map[
      "input" := OptionalCount(u.input), "output" := OptionalCount(u.output),
      "cacheRead" := OptionalCount(u.cacheRead), "cacheWrite" := OptionalCount(u.cacheWrite),
      "totalTokens" :=
        if u.input.Some? && u.output.Some? then Count(Saturated(u.input.value + u.output.value)) else Null,
      "cost" := Obj(map[
        "input" := Null, "output" := Null, "cacheRead" := Null, "cacheWrite" := Null,
        "total" := OptionalString(u.cost)])])
  }

  function With(fields: map<string, Json>, present: bool, key: string, value: Json): map<string, Json> {
    if present then fields[key := value] else fields
  }

  function EncodeContent(content: string, calls: seq<ToolCall>, text: Text): Json {
    Arr((if content == "" then [] else [TextBlock(content)]) + CallBlocks(calls, text))
  }

  function EncodeAssistant(message: Message, model: Option<Model>, now: nat, text: Text): map<string, Json>
    requires message.Assistant?
  {
    map[
      "role" := Str("assistant"),
      "content" := EncodeContent(message.content, message.calls, text),
      "provider" := Str(if model.Some? then model.value.provider else ""),
      "model" := Str(if model.Some? then model.value.name else ""),
      "stopReason" := Str(if message.stopReason.Some? then StopReasonName(message.stopReason.value) else "stop"),
      "timestamp" := Count(now)]
  }

  function EncodeDetails(details: Option<string>, text: Text): Json {
    if details.Some? then ParseOrString(text, details.value) else Null
  }

  function EncodeResult(message: Message, now: nat, text: Text): map<string, Json>
    requires message.ToolResult?
  {
    map[
      "role" := Str("toolResult"), "toolCallId" := Str(message.callId), "toolName" := Str(message.toolName),
      "content" := Arr([TextBlock(message.content)]),
      "details" := EncodeDetails(message.details, text),
      "usage" := if message.usage.Some? then EncodeUsage(message.usage.value) else Null,
      "isError" := Bool(message.isError),
      "timestamp" := Count(now)]
  }

  function EncodeMessage(message: Message, model: Option<Model>, now: nat, text: Text): Json {
    match message
    case User(_, content) =>
      Obj(map["role" := Str("user"), "content" := Str(content), "timestamp" := Count(now)])
    case Assistant(_, _, _, _, error) =>
      Obj(With(EncodeAssistant(message, model, now, text), error.Some?, "errorMessage", OptionalString(error)))
    case ToolResult(_, _, _, _, _, _, added, _, _, _) =>
      Obj(With(EncodeResult(message, now, text), added != [], "addedToolNames", Arr(Strings(added))))
  }

  /** What the counter and the clock supply for one entry. */
  datatype Stamp = Stamp(id: string, timestamp: string, now: nat)

  function Header(record: Record): Json {
    Obj(map[
      "type" := Str("session"), "version" := Count(3), "id" := Str(record.id),
      "timestamp" := Str(record.timestamp), "cwd" := Str(record.cwd)])
  }

  function ModelEntry(model: Model, stamp: Stamp, parent: Option<string>): Json {
    Obj(map[
      "type" := Str("model_change"), "id" := Str(stamp.id), "parentId" := OptionalString(parent),
      "timestamp" := Str(stamp.timestamp), "provider" := Str(model.provider), "modelId" := Str(model.name)])
  }

  function ThinkingEntry(level: ThinkingLevel, stamp: Stamp, parent: Option<string>): Json {
    Obj(map[
      "type" := Str("thinking_level_change"), "id" := Str(stamp.id), "parentId" := OptionalString(parent),
      "timestamp" := Str(stamp.timestamp), "thinkingLevel" := Str(ThinkingName(level))])
  }

  function MessageEntry(message: Message, model: Option<Model>, stamp: Stamp, parent: Option<string>, text: Text)
    : Json
  {
    Obj(map[
      "type" := Str("message"), "id" := Str(stamp.id), "parentId" := OptionalString(parent),
      "timestamp" := Str(stamp.timestamp), "message" := EncodeMessage(message, model, stamp.now, text)])
  }

  /** The entries of the first `n` messages; the entry at position `i` of the file takes stamp `i`. */
  function MessageEntries(record: Record, n: nat, first: nat, stamps: nat -> Stamp, text: Text): seq<Json>
    requires n <= |record.messages| && first >= 1
  {
    if n == 0 then []
    else
      MessageEntries(record, n - 1, first, stamps, text)
      + [MessageEntry(record.messages[n - 1], record.model, stamps(first + n - 1),
                      Some(stamps(first + n - 2).id), text)]
  }

  /** Saving: header, model if there is one, thinking level, messages, each entry naming the one before it. */
  method EncodeFile(record: Record, stamps: nat -> Stamp, text: Text) returns (entries: seq<Json>)
    ensures entries == FileEntries(record, stamps, text)
  {
    entries := [Header(record)];
    var parent: Option<string> := None;
    if record.model.Some? {
      var stamp := stamps(|entries|);
      entries := entries + [ModelEntry(record.model.value, stamp, parent)];
      parent := Some(stamp.id);
    }
    var stamp := stamps(|entries|);
    entries := entries + [ThinkingEntry(record.thinking, stamp, parent)];
    parent := Some(stamp.id);
    ghost var start := entries;
    for i := 0 to |record.messages|
      invariant entries == start + MessageEntries(record, i, |start|, stamps, text)
      invariant |MessageEntries(record, i, |start|, stamps, text)| == i
      invariant parent == Some(stamps(|entries| - 1).id)
    {
      stamp := stamps(|entries|);
      entries := entries + [MessageEntry(record.messages[i], record.model, stamp, parent, text)];
      parent := Some(stamp.id);
    }
  }

  function Preamble(record: Record, stamps: nat -> Stamp): seq<Json> {
    if record.model.Some? then
      [Header(record), ModelEntry(record.model.value, stamps(1), None),
       ThinkingEntry(record.thinking, stamps(2), Some(stamps(1).id))]
    else [Header(record), ThinkingEntry(record.thinking, stamps(1), None)]
  }

  function FileEntries(record: Record, stamps: nat -> Stamp, text: Text): seq<Json> {
    var start := Preamble(record, stamps);
    start + MessageEntries(record, |record.messages|, |start|, stamps, text)
  }

  // ----- Decoding

  type Fields = map<string, Json>

  function Get(o: Fields, key: string): Option<Json> { if key in o then Some(o[key]) else None }

  function Member(v: Json, key: string): Option<Json> { if v.Obj? then Get(v.fields, key) else None }

  function AsText(v: Option<Json>): Option<string> {
    if v.Some? && v.value.Str? then Some(v.value.text) else None
  }

  function AsCount(v: Option<Json>): Option<nat> {
    if v.Some? && v.value.Num? && v.value.number.Unsigned? then Some(v.value.number.magnitude) else None
  }

  function ExpectObject(v: Json): Decoded<Fields> { if v.Obj? then Ok(v.fields) else Err(NotAnObject) }

  function RequiredString(o: Fields, field: string): Decoded<string> {
    var t := AsText(Get(o, field));
    if t.Some? then Ok(t.value) else Err(NotAString(field))
  }

  function OptionalStringAt(o: Fields, field: string): Decoded<Option<string>> {
    match Get(o, field)
    case None => Ok(None)
    case Some(Null) => Ok(None)
    case Some(Str(t)) => Ok(Some(t))
    case _ => Err(NotAString(field))
  }

  function JoinTexts(items: seq<Json>): string {
    if items == [] then ""
    else
      var t := AsText(Member(items[0], "text"));
      (if t.Some? then t.value else "") + JoinTexts(items[1..])
  }

  function DecodeContent(v: Option<Json>): Decoded<string> {
    match v
    case Some(Str(t)) => Ok(t)
    case Some(Arr(items)) => Ok(JoinTexts(items))
    case _ => Err(BadContent)
  }

  function DecodeCall(o: Fields, text: Text): Decoded<ToolCall> {
    var id :- RequiredString(o, "id");
    if id == "" then Err(EmptyCallId)
    else
      var name :- RequiredString(o, "name");
      Ok(ToolCall(id, name, if "arguments" in o then text.render(o["arguments"]) else "null"))
  }

  /** Texts are joined and calls collected in order; other blocks are skipped. */
  function DecodeBlocks(items: seq<Json>, text: Text): Decoded<(string, seq<ToolCall>)> {
    if items == [] then Ok(("", []))
    else
      var o :- ExpectObject(items[0]);
      var kind :- RequiredString(o, "type");
      if kind == "text" then
        var t :- RequiredString(o, "text");
        var rest :- DecodeBlocks(items[1..], text);
        Ok((t + rest.0, rest.1))
      else if kind == "toolCall" then
        var call :- DecodeCall(o, text);
        var rest :- DecodeBlocks(items[1..], text);
        Ok((rest.0, [call] + rest.1))
      else DecodeBlocks(items[1..], text)
  }

  function DecodeAssistantContent(v: Option<Json>, text: Text): Decoded<(string, seq<ToolCall>)> {
    match v
    case Some(Str(t)) => Ok((t, []))
    case Some(Arr(items)) => DecodeBlocks(items, text)
    case _ => Err(BadContent)
  }

  function DecodeStop(o: Fields): Decoded<Option<StopReason>> {
    var name := AsText(Get(o, "stopReason"));
    if name.None? then Ok(None)
    else
      var reason :- ParseStopReason(name.value);
      Ok(Some(reason))
  }

  function DecodeDetails(v: Option<Json>, text: Text): Option<string> {
    if v.None? || v.value.Null? then None else Some(text.render(v.value))
  }

  function DecodeNames(v: Option<Json>): seq<string> {
    if v.Some? && v.value.Arr? then TextsOf(v.value.items) else []
  }

  function TextsOf(items: seq<Json>): seq<string> {
    if items == [] then [] else (if items[0].Str? then [items[0].text] else []) + TextsOf(items[1..])
  }

  function ScalarText(v: Json, text: Text): string { if v.Str? then v.text else text.render(v) }

  function DecodeUsage(v: Option<Json>, text: Text): Decoded<Option<Usage>> {
    if v.None? || v.value.Null? then Ok(None)
    else
      var o :- ExpectObject(v.value);
      var total := if "cost" in o then Member(o["cost"], "total") else None;
      Ok(Some(Usage(
        AsCount(Get(o, "input")), AsCount(Get(o, "output")), None,
        AsCount(Get(o, "cacheRead")), AsCount(Get(o, "cacheWrite")),
        if total.Some? then Some(ScalarText(total.value, text)) else None)))
  }

  function DecodeAssistant(o: Fields, id: nat, text: Text): Decoded<Message> {
    var content :- DecodeAssistantContent(Get(o, "content"), text);
    var stop :- DecodeStop(o);
    var error :- OptionalStringAt(o, "errorMessage");
    Ok(Assistant(id, content.0, content.1, stop, error))
  }

  function DecodeResult(o: Fields, id: nat, text: Text): Decoded<Message> {
    var callId :- RequiredString(o, "toolCallId");
    if callId == "" then Err(EmptyCallId)
    else
      var toolName :- RequiredString(o, "toolName");
      var content :- DecodeContent(Get(o, "content"));
      var usage :- DecodeUsage(Get(o, "usage"), text);
      Ok(ToolResult(id, callId, toolName, content, DecodeDetails(Get(o, "details"), text), usage,
        DecodeNames(Get(o, "addedToolNames")), false, Get(o, "isError") == Some(Bool(true)), None))
  }

  function DecodeMessage(v: Json, id: nat, text: Text): Decoded<Message> {
    var o :- ExpectObject(v);
    var role :- RequiredString(o, "role");
    match role
    case "user" =>
      var content :- DecodeContent(Get(o, "content"));
      Ok(User(id, content))
    case "assistant" => DecodeAssistant(o, id, text)
    case "toolResult" => DecodeResult(o, id, text)
    case _ => Err(UnknownRole(role))
  }

  /** What loading has established so far. */
  datatype Loading = Loading(model: Option<Model>, thinking: ThinkingLevel, messages: seq<Message>)

  /** Without a model entry the first assistant message that names one decides. */
  function ModelOf(message: Json): Option<Model> {
    var (provider, name) := (AsText(Member(message, "provider")), AsText(Member(message, "model")));
    if provider.Some? && name.Some? && provider.value != "" && name.value != ""
    then Some(Model(provider.value, name.value, None)) else None
  }

  function DecodeEntry(s: Loading, v: Json, text: Text): Decoded<Loading> {
    var o :- ExpectObject(v);
    var kind :- RequiredString(o, "type");
    match kind
    case "model_change" =>
      var provider :- RequiredString(o, "provider");
      var name :- RequiredString(o, "modelId");
      Ok(s.(model := Some(Model(provider, name, None))))
    case "thinking_level_change" =>
      var name :- RequiredString(o, "thinkingLevel");
      var level :- ParseThinking(name);
      Ok(s.(thinking := level))
    case "message" =>
      if "message" !in o then Err(NoMessage)
      else
        var message :- DecodeMessage(o["message"], |s.messages| + 1, text);
        Ok(Loading(
          if s.model.None? && message.Assistant? then ModelOf(o["message"]) else s.model,
          s.thinking, s.messages + [message]))
    case _ => Ok(s)
  }

  /** Blank lines and lines that do not parse are skipped. */
  function DecodeLine(s: Loading, line: string, text: Text): Decoded<Loading> {
    if Blank(line) || text.parse(line).None? then Ok(s) else DecodeEntry(s, text.parse(line).value, text)
  }

  function DecodeLines(s: Loading, lines: seq<string>, text: Text): Decoded<Loading>
    decreases |lines|
  {
    if lines == [] then Ok(s)
    else
      var next :- DecodeLine(s, lines[0], text);
      DecodeLines(next, lines[1..], text)
  }

  predicate AsciiAlphanumeric(c: char) { 'a' <= c <= 'z' || 'A' <= c <= 'Z' || '0' <= c <= '9' }

  predicate ValidSessionId(id: string) {
    && 1 <= |id| <= 128
    && AsciiAlphanumeric(id[0]) && AsciiAlphanumeric(id[|id| - 1])
    && forall c :: c in id ==> AsciiAlphanumeric(c) || c in "-_."
  }

  function DecodeHeader(line: string, text: Text): Decoded<Record> {
    var v := text.parse(line);
    if v.None? then Err(NotJson)
    else
      var o :- ExpectObject(v.value);
      var kind :- RequiredString(o, "type");
      if kind != "session" then Err(NotASession)
      else
        var stated := AsCount(Get(o, "version"));
        var version := if stated.Some? then stated.value else 1;
        if !(1 <= version <= 3) then Err(UnsupportedVersion(version))
        else
          var id :- RequiredString(o, "id");
          if !ValidSessionId(id) then Err(BadSessionId)
          else
            var timestamp :- RequiredString(o, "timestamp");
            var thinking :- HeaderThinking(o);
            var cwd := AsText(Get(o, "cwd"));
            Ok(Record(id, timestamp, if cwd.Some? then cwd.value else "", HeaderModel(o), thinking, []))
  }

  function HeaderModel(o: Fields): Option<Model> {
    var (provider, name) := (AsText(Get(o, "provider")), AsText(Get(o, "modelId")));
    if provider.Some? && name.Some? then Some(Model(provider.value, name.value, None)) else None
  }

  function HeaderThinking(o: Fields): Decoded<ThinkingLevel> {
    var level := AsText(Get(o, "thinkingLevel"));
    if level.Some? then ParseThinking(level.value) else Ok(Off)
  }

  function LoadedFrom(header: Record): Loading { Loading(header.model, header.thinking, []) }

  function Finish(header: Record, s: Loading): Record {
    header.(model := s.model, thinking := s.thinking, messages := s.messages)
  }

  function LoadedFile(lines: seq<string>, text: Text): Decoded<Record> {
    if lines == [] then Err(NoHeader)
    else
      var header :- DecodeHeader(lines[0], text);
      var s :- DecodeLines(LoadedFrom(header), lines[1..], text);
      Ok(Finish(header, s))
  }

  /** Loading: the header, then every later line in turn. */
  method DecodeFile(lines: seq<string>, text: Text) returns (r: Decoded<Record>)
    ensures r == LoadedFile(lines, text)
  {
    if lines == [] {
      return Err(NoHeader);
    }
    var header := DecodeHeader(lines[0], text);
    if header.Err? {
      return Err(header.error);
    }
    var s := LoadedFrom(header.value);
    for i := 1 to |lines|
      invariant DecodeLines(LoadedFrom(header.value), lines[1..], text) == DecodeLines(s, lines[i..], text)
    {
      assert lines[i..][1..] == lines[i + 1..];
      var next := DecodeLine(s, lines[i], text);
      if next.Err? {
        return Err(next.error);
      }
      s := next.value;
    }
    return Ok(Finish(header.value, s));
  }

  // ----- The normal form: what saving and loading keep

  function NormalCalls(calls: seq<ToolCall>, text: Text): seq<ToolCall> {
    if calls == [] then []
    else [calls[0].(arguments := Canonical(text, calls[0].arguments))] + NormalCalls(calls[1..], text)
  }

  /** Null details are dropped and others printed canonically. */
  function NormalDetails(details: Option<string>, text: Text): Option<string> {
    if details.None? || ParseOrString(text, details.value).Null? then None
    else Some(Canonical(text, details.value))
  }

  /** Reasoning tokens are dropped, and an absent cost is read back as the text of null. */
  function NormalUsage(usage: Option<Usage>): Option<Usage> {
    if usage.None? then None
    else
      var cost := if usage.value.cost.Some? then usage.value.cost else Some("null");
      Some(usage.value.(reasoning := None, cost := cost))
  }

  /** A missing stop reason becomes a stop; termination and failure are dropped. */
  function NormalMessage(message: Message, id: nat, text: Text): Message {
    match message
    case User(_, content) => User(id, content)
    case Assistant(_, content, calls, stop, error) =>
      Assistant(id, content, NormalCalls(calls, text), if stop.Some? then stop else Some(Stop), error)
    case ToolResult(_, callId, toolName, content, details, usage, added, _, isError, _) =>
      ToolResult(id, callId, toolName, content, NormalDetails(details, text), NormalUsage(usage), added, false,
        isError, None)
  }

  /** The first `n` messages, numbered from one. */
  function NormalMessages(messages: seq<Message>, n: nat, text: Text): (normal: seq<Message>)
    requires n <= |messages|
    ensures |normal| == n
  {
    if n == 0 then []
    else NormalMessages(messages, n - 1, text) + [NormalMessage(messages[n - 1], n, text)]
  }

  function Normal(record: Record, text: Text): Record {
    record.(
      model := if record.model.Some? then Some(record.model.value.(revision := None)) else None,
      messages := NormalMessages(record.messages, |record.messages|, text))
  }

  /** Tool-call identifiers are never empty: their type refuses it. */
  predicate CallIdsPresent(message: Message) {
    match message
    case User(_, _) => true
    case Assistant(_, _, calls, _, _) => forall c :: c in calls ==> c.id != ""
    case ToolResult(_, callId, _, _, _, _, _, _, _, _) => callId != ""
  }

  predicate WellFormed(record: Record) { forall m :: m in record.messages ==> CallIdsPresent(m) }

  // ----- One message

  lemma {:induction false} CallsRoundTrip(calls: seq<ToolCall>, text: Text)
    requires forall c :: c in calls ==> c.id != ""
    ensures DecodeBlocks(CallBlocks(calls, text), text) == Ok(("", NormalCalls(calls, text)))
  {
    if calls != [] {
      var rest := CallBlocks(calls[1..], text);
      assert ([CallBlock(calls[0], text)] + rest)[1..] == rest;
      assert calls[0] in calls;
      CallsRoundTrip(calls[1..], text);
    }
  }

  lemma ContentRoundTrip(content: string, calls: seq<ToolCall>, text: Text)
    requires forall c :: c in calls ==> c.id != ""
    ensures DecodeAssistantContent(Some(EncodeContent(content, calls, text)), text)
      == Ok((content, NormalCalls(calls, text)))
  {
    var blocks := CallBlocks(calls, text);
    CallsRoundTrip(calls, text);
    if content == "" {
      assert [] + blocks == blocks;
    } else {
      assert ([TextBlock(content)] + blocks)[1..] == blocks;
      assert content + "" == content;
    }
  }

  lemma {:induction false} NamesRoundTrip(names: seq<string>)
    ensures TextsOf(Strings(names)) == names
  {
    if names != [] {
      assert ([Str(names[0])] + Strings(names[1..]))[1..] == Strings(names[1..]);
      NamesRoundTrip(names[1..]);
    }
  }

  lemma NamesOfReasons(reason: StopReason)
    ensures ParseStopReason(StopReasonName(reason)) == Ok(reason)
  {
  }

  lemma UsageRoundTrip(usage: Option<Usage>, text: Text)
    requires Faithful(text)
    ensures DecodeUsage(Some(if usage.Some? then EncodeUsage(usage.value) else Null), text) == Ok(NormalUsage(usage))
  {
  }

  lemma TextRoundTrip(content: string)
    ensures JoinTexts([TextBlock(content)]) == content
  {
    assert [TextBlock(content)][1..] == [];
    assert content + "" == content;
  }

  lemma UserRoundTrip(message: Message, model: Option<Model>, now: nat, id: nat, text: Text)
    requires message.User?
    ensures DecodeMessage(EncodeMessage(message, model, now, text), id, text) == Ok(NormalMessage(message, id, text))
  {
  }

  lemma AssistantRoundTrip(message: Message, model: Option<Model>, now: nat, id: nat, text: Text)
    requires message.Assistant? && CallIdsPresent(message)
    ensures DecodeMessage(EncodeMessage(message, model, now, text), id, text) == Ok(NormalMessage(message, id, text))
  {
    var o := EncodeMessage(message, model, now, text).fields;
    AssistantFields(message, model, now, text);
    AssistantDecodes(o, message, id, text);
  }

  lemma AssistantFields(message: Message, model: Option<Model>, now: nat, text: Text)
    requires message.Assistant?
    ensures
      var o := EncodeMessage(message, model, now, text).fields;
      && Get(o, "role") == Some(Str("assistant"))
      && Get(o, "content") == Some(EncodeContent(message.content, message.calls, text))
      && DecodeStop(o) == Ok(if message.stopReason.Some? then message.stopReason else Some(Stop))
      && OptionalStringAt(o, "errorMessage") == Ok(message.errorMessage)
  {
    if message.stopReason.Some? {
      NamesOfReasons(message.stopReason.value);
    }
  }

  lemma AssistantDecodes(o: Fields, message: Message, id: nat, text: Text)
    requires message.Assistant? && CallIdsPresent(message)
    requires Get(o, "content") == Some(EncodeContent(message.content, message.calls, text))
    requires DecodeStop(o) == Ok(if message.stopReason.Some? then message.stopReason else Some(Stop))
    requires OptionalStringAt(o, "errorMessage") == Ok(message.errorMessage)
    ensures DecodeAssistant(o, id, text) == Ok(NormalMessage(message, id, text))
  {
    ContentRoundTrip(message.content, message.calls, text);
  }

  lemma ResultRoundTrip(message: Message, model: Option<Model>, now: nat, id: nat, text: Text)
    requires message.ToolResult? && CallIdsPresent(message) && Faithful(text)
    ensures DecodeMessage(EncodeMessage(message, model, now, text), id, text) == Ok(NormalMessage(message, id, text))
  {
    var o := EncodeMessage(message, model, now, text).fields;
    ResultFields(message, model, now, text);
    UsageRoundTrip(message.usage, text);
    TextRoundTrip(message.content);
    NamesRoundTrip(message.addedToolNames);
    ResultDecodes(o, message, id, text);
    ResultByRole(Obj(o), id, text);
  }

  lemma ResultByRole(v: Json, id: nat, text: Text)
    requires v.Obj? && Get(v.fields, "role") == Some(Str("toolResult"))
    ensures DecodeMessage(v, id, text) == DecodeResult(v.fields, id, text)
  {
  }

  lemma ResultFields(message: Message, model: Option<Model>, now: nat, text: Text)
    requires message.ToolResult?
    ensures
      var o := EncodeMessage(message, model, now, text).fields;
      && Get(o, "role") == Some(Str("toolResult"))
      && Get(o, "toolCallId") == Some(Str(message.callId)) && Get(o, "toolName") == Some(Str(message.toolName))
      && Get(o, "content") == Some(Arr([TextBlock(message.content)]))
      && Get(o, "details") == Some(EncodeDetails(message.details, text))
      && Get(o, "usage") == Some(if message.usage.Some? then EncodeUsage(message.usage.value) else Null)
      && Get(o, "isError") == Some(Bool(message.isError))
      && Get(o, "addedToolNames") ==
           if message.addedToolNames == [] then None else Some(Arr(Strings(message.addedToolNames)))
  {
  }

  lemma ResultDecodes(o: Fields, message: Message, id: nat, text: Text)
    requires message.ToolResult? && message.callId != ""
    requires Get(o, "toolCallId") == Some(Str(message.callId)) && Get(o, "toolName") == Some(Str(message.toolName))
    requires DecodeContent(Get(o, "content")) == Ok(message.content)
    requires Get(o, "details") == Some(EncodeDetails(message.details, text))
    requires DecodeUsage(Get(o, "usage"), text) == Ok(NormalUsage(message.usage))
    requires Get(o, "isError") == Some(Bool(message.isError))
    requires DecodeNames(Get(o, "addedToolNames")) == message.addedToolNames
    ensures DecodeResult(o, id, text) == Ok(NormalMessage(message, id, text))
  {
  }

  /** A message decodes to its normal form under the identifier the loader gives it. */
  lemma MessageRoundTrip(message: Message, model: Option<Model>, now: nat, id: nat, text: Text)
    requires CallIdsPresent(message) && Faithful(text)
    ensures DecodeMessage(EncodeMessage(message, model, now, text), id, text) == Ok(NormalMessage(message, id, text))
  {
    match message
    case User(_, _) => UserRoundTrip(message, model, now, id, text);
    case Assistant(_, _, _, _, _) => AssistantRoundTrip(message, model, now, id, text);
    case ToolResult(_, _, _, _, _, _, _, _, _, _) => ResultRoundTrip(message, model, now, id, text);
  }

  // ----- Encoded values survive printing and parsing

  lemma {:induction false} CallBlocksPlain(calls: seq<ToolCall>, text: Text)
    requires Faithful(text)
    ensures forall b :: b in CallBlocks(calls, text) ==> Plain(b)
  {
    if calls != [] {
      CallBlocksPlain(calls[1..], text);
    }
  }

  lemma {:induction false} StringsPlain(names: seq<string>)
    ensures forall v :: v in Strings(names) ==> Plain(v)
  {
    if names != [] {
      StringsPlain(names[1..]);
    }
  }

  lemma AssistantPlain(message: Message, model: Option<Model>, now: nat, text: Text)
    requires message.Assistant? && Faithful(text)
    ensures Plain(EncodeMessage(message, model, now, text))
  {
    CallBlocksPlain(message.calls, text);
    assert Plain(TextBlock(message.content));
    assert Plain(EncodeContent(message.content, message.calls, text));
    var o := EncodeMessage(message, model, now, text).fields;
    forall k | k in o ensures Plain(o[k]) {
    }
  }

  lemma ResultPlain(message: Message, model: Option<Model>, now: nat, text: Text)
    requires message.ToolResult? && Faithful(text)
    ensures Plain(EncodeMessage(message, model, now, text))
  {
    StringsPlain(message.addedToolNames);
    if message.details.Some? {
      ParsedPlain(message.details.value, text);
    }
    ResultFieldsPlain(message, now, text);
    assert Plain(Arr(Strings(message.addedToolNames)));
    var o := EncodeMessage(message, model, now, text).fields;
    forall k | k in o ensures Plain(o[k]) {
    }
  }

  lemma ResultFieldsPlain(message: Message, now: nat, text: Text)
    requires message.ToolResult? && Plain(EncodeDetails(message.details, text))
    ensures forall k :: k in EncodeResult(message, now, text) ==> Plain(EncodeResult(message, now, text)[k])
  {
    assert Plain(TextBlock(message.content));
    assert Plain(Arr([TextBlock(message.content)]));
    if message.usage.Some? {
      UsagePlain(message.usage.value);
    }
  }

  lemma ParsedPlain(t: string, text: Text)
    requires Faithful(text)
    ensures Plain(ParseOrString(text, t))
  {
  }

  lemma MessagePlain(message: Message, model: Option<Model>, now: nat, text: Text)
    requires Faithful(text)
    ensures Plain(EncodeMessage(message, model, now, text))
  {
    match message
    case User(_, _) =>
    case Assistant(_, _, _, _, _) => AssistantPlain(message, model, now, text);
    case ToolResult(_, _, _, _, _, _, _, _, _, _) => ResultPlain(message, model, now, text);
  }

  lemma UsagePlain(usage: Usage)
    ensures Plain(EncodeUsage(usage))
  {
    var o := EncodeUsage(usage).fields;
    assert Plain(o["cost"]);
  }

  // ----- Whole files

  function Lines(entries: seq<Json>, text: Text): seq<string> {
    if entries == [] then [] else [text.render(entries[0])] + Lines(entries[1..], text)
  }

  lemma {:induction false} LinesConcat(a: seq<Json>, b: seq<Json>, text: Text)
    ensures Lines(a + b, text) == Lines(a, text) + Lines(b, text)
  {
    if a == [] {
      assert a + b == b;
    } else {
      assert (a + b)[0] == a[0] && (a + b)[1..] == a[1..] + b;
      LinesConcat(a[1..], b, text);
    }
  }

  lemma {:induction false} DecodeConcat(s: Loading, a: seq<string>, b: seq<string>, text: Text)
    ensures DecodeLines(s, a + b, text) ==
      var first := DecodeLines(s, a, text);
      if first.Err? then first else DecodeLines(first.value, b, text)
    decreases |a|
  {
    if a == [] {
      assert a + b == b;
    } else {
      assert (a + b)[0] == a[0] && (a + b)[1..] == a[1..] + b;
      var next := DecodeLine(s, a[0], text);
      if next.Ok? {
        DecodeConcat(next.value, a[1..], b, text);
      }
    }
  }

  lemma LineDecodes(s: Loading, entry: Json, text: Text)
    requires Faithful(text) && Plain(entry)
    ensures DecodeLines(s, [text.render(entry)], text) == DecodeEntry(s, entry, text)
  {
    assert text.parse(text.render(entry)) == Some(entry) && !Blank(text.render(entry));
    var lines := [text.render(entry)];
    assert lines[1..] == [];
    assert DecodeLine(s, lines[0], text) == DecodeEntry(s, entry, text);
  }

  /** A message entry adds the normal form under the next number, and no model where none is known. */
  lemma MessageEntryDecodes(s: Loading, message: Message, model: Option<Model>, stamp: Stamp, parent: Option<string>,
      text: Text)
    requires Faithful(text) && CallIdsPresent(message) && (s.model.Some? <==> model.Some?)
    ensures Plain(MessageEntry(message, model, stamp, parent, text))
    ensures DecodeEntry(s, MessageEntry(message, model, stamp, parent, text), text) ==
      Ok(s.(messages := s.messages + [NormalMessage(message, |s.messages| + 1, text)]))
  {
    MessagePlain(message, model, stamp.now, text);
    MessageRoundTrip(message, model, stamp.now, |s.messages| + 1, text);
    if model.None? && message.Assistant? {
      NoModelNamed(message, stamp.now, text);
    }
    EntryHolds(s, EncodeMessage(message, model, stamp.now, text), NormalMessage(message, |s.messages| + 1, text),
      stamp, parent, text);
  }

  lemma EntryHolds(s: Loading, v: Json, message: Message, stamp: Stamp, parent: Option<string>, text: Text)
    requires Plain(v) && DecodeMessage(v, |s.messages| + 1, text) == Ok(message)
    requires s.model.None? && message.Assistant? ==> ModelOf(v).None?
    ensures
      var entry := Obj(map[
        "type" := Str("message"), "id" := Str(stamp.id), "parentId" := OptionalString(parent),
        "timestamp" := Str(stamp.timestamp), "message" := v]);
      Plain(entry) && DecodeEntry(s, entry, text) == Ok(s.(messages := s.messages + [message]))
  {
  }

  lemma NoModelNamed(message: Message, now: nat, text: Text)
    requires message.Assistant?
    ensures ModelOf(EncodeMessage(message, None, now, text)).None?
  {
  }

  lemma {:induction false} MessagesDecode(record: Record, n: nat, first: nat, stamps: nat -> Stamp, s: Loading,
      text: Text)
    requires Faithful(text) && WellFormed(record) && n <= |record.messages| && first >= 1
    requires s.messages == [] && (s.model.Some? <==> record.model.Some?)
    ensures DecodeLines(s, Lines(MessageEntries(record, n, first, stamps, text), text), text) ==
      Ok(s.(messages := NormalMessages(record.messages, n, text)))
    decreases n
  {
    if n > 0 {
      MessagesDecode(record, n - 1, first, stamps, s, text);
      var before := MessageEntries(record, n - 1, first, stamps, text);
      var entry := MessageEntry(record.messages[n - 1], record.model, stamps(first + n - 1),
        Some(stamps(first + n - 2).id), text);
      MessageLineDecodes(record, n, first, stamps, s, text);
      LinesConcat(before, [entry], text);
      DecodeConcat(s, Lines(before, text), Lines([entry], text), text);
    }
  }

  lemma MessageLineDecodes(record: Record, n: nat, first: nat, stamps: nat -> Stamp, s: Loading, text: Text)
    requires Faithful(text) && WellFormed(record) && 0 < n <= |record.messages| && first >= 1
    requires s.messages == [] && (s.model.Some? <==> record.model.Some?)
    ensures
      var entry := MessageEntry(record.messages[n - 1], record.model, stamps(first + n - 1),
        Some(stamps(first + n - 2).id), text);
      DecodeLines(s.(messages := NormalMessages(record.messages, n - 1, text)), Lines([entry], text), text) ==
        Ok(s.(messages := NormalMessages(record.messages, n, text)))
  {
    var (message, stamp) := (record.messages[n - 1], stamps(first + n - 1));
    var parent := Some(stamps(first + n - 2).id);
    var entry := MessageEntry(message, record.model, stamp, parent, text);
    var after := s.(messages := NormalMessages(record.messages, n - 1, text));
    assert message in record.messages;
    MessageEntryDecodes(after, message, record.model, stamp, parent, text);
    LineDecodes(after, entry, text);
    assert Lines([entry], text) == [text.render(entry)];
  }

  lemma ThinkingNames(level: ThinkingLevel)
    ensures ParseThinking(ThinkingName(level)) == Ok(level)
  {
  }

  lemma ThinkingEntryDecodes(s: Loading, level: ThinkingLevel, stamp: Stamp, parent: Option<string>, text: Text)
    ensures Plain(ThinkingEntry(level, stamp, parent))
    ensures DecodeEntry(s, ThinkingEntry(level, stamp, parent), text) == Ok(s.(thinking := level))
  {
    ThinkingNames(level);
  }

  lemma ModelEntryDecodes(s: Loading, model: Model, stamp: Stamp, parent: Option<string>, text: Text)
    ensures Plain(ModelEntry(model, stamp, parent))
    ensures DecodeEntry(s, ModelEntry(model, stamp, parent), text) == Ok(s.(model := Some(model.(revision := None))))
  {
  }

  lemma HeaderDecodes(record: Record, text: Text)
    requires Faithful(text)
    ensures DecodeHeader(text.render(Header(record)), text) ==
      if ValidSessionId(record.id) then Ok(Record(record.id, record.timestamp, record.cwd, None, Off, []))
      else Err(BadSessionId)
  {
    HeaderPlain(record);
    assert text.parse(text.render(Header(record))) == Some(Header(record));
    HeaderReads(record, text.render(Header(record)), text);
  }

  lemma HeaderPlain(record: Record)
    ensures Plain(Header(record))
  {
  }

  lemma HeaderReads(record: Record, line: string, text: Text)
    requires text.parse(line) == Some(Header(record))
    ensures DecodeHeader(line, text) ==
      if ValidSessionId(record.id) then Ok(Record(record.id, record.timestamp, record.cwd, None, Off, []))
      else Err(BadSessionId)
  {
    var o := Header(record).fields;
    assert AsText(Get(o, "type")) == Some("session") && AsCount(Get(o, "version")) == Some(3);
    assert HeaderModel(o) == None && HeaderThinking(o) == Ok(Off);
  }

  lemma PreambleDecodes(record: Record, stamps: nat -> Stamp, s: Loading, text: Text)
    requires Faithful(text) && s == Loading(None, Off, [])
    ensures DecodeLines(s, Lines(Preamble(record, stamps)[1..], text), text) ==
      Ok(Loading(Normal(record, text).model, record.thinking, []))
  {
    var entries := Preamble(record, stamps)[1..];
    if record.model.Some? {
      var (first, second) := (entries[0], entries[1]);
      assert entries == [first] + [second];
      var after := s.(model := Normal(record, text).model);
      ModelEntryDecodes(s, record.model.value, stamps(1), None, text);
      ThinkingEntryDecodes(after, record.thinking, stamps(2), Some(stamps(1).id), text);
      LineDecodes(s, first, text);
      LineDecodes(after, second, text);
      LinesConcat([first], [second], text);
      assert Lines([first], text) == [text.render(first)] && Lines([second], text) == [text.render(second)];
      DecodeConcat(s, [text.render(first)], [text.render(second)], text);
    } else {
      var only := ThinkingEntry(record.thinking, stamps(1), None);
      assert entries == [only];
      ThinkingEntryDecodes(s, record.thinking, stamps(1), None, text);
      LineDecodes(s, only, text);
      assert Lines([only], text) == [text.render(only)];
    }
  }

  /** A saved record loads as its normal form exactly if its session identifier is a valid one. */
  lemma SaveThenLoad(record: Record, stamps: nat -> Stamp, text: Text)
    requires Faithful(text) && WellFormed(record)
    ensures LoadedFile(Lines(FileEntries(record, stamps, text), text), text) ==
      if ValidSessionId(record.id) then Ok(Normal(record, text)) else Err(BadSessionId)
  {
    var start := Preamble(record, stamps);
    var entries := MessageEntries(record, |record.messages|, |start|, stamps, text);
    var header := Header(record);
    LinesConcat(start, entries, text);
    LinesConcat([header], start[1..], text);
    assert start == [header] + start[1..] && Lines([header], text) == [text.render(header)];
    var rest := Lines(start[1..], text) + Lines(entries, text);
    assert Lines(start + entries, text) == [text.render(header)] + rest;
    HeaderDecodes(record, text);
    BodyDecodes(record, stamps, text);
    LoadsFrom(text.render(header), rest, text);
  }

  lemma LoadsFrom(header: string, rest: seq<string>, text: Text)
    ensures LoadedFile([header] + rest, text) ==
      var h := DecodeHeader(header, text);
      if h.Err? then Err(h.error)
      else
        var s := DecodeLines(LoadedFrom(h.value), rest, text);
        if s.Err? then Err(s.error) else Ok(Finish(h.value, s.value))
  {
    assert ([header] + rest)[1..] == rest;
  }

  lemma BodyDecodes(record: Record, stamps: nat -> Stamp, text: Text)
    requires Faithful(text) && WellFormed(record)
    ensures
      var start := Preamble(record, stamps);
      var entries := MessageEntries(record, |record.messages|, |start|, stamps, text);
      var normal := Normal(record, text);
      DecodeLines(Loading(None, Off, []), Lines(start[1..], text) + Lines(entries, text), text) ==
        Ok(Loading(normal.model, normal.thinking, normal.messages))
  {
    var start := Preamble(record, stamps);
    var entries := MessageEntries(record, |record.messages|, |start|, stamps, text);
    var s := Loading(None, Off, []);
    var after := Loading(Normal(record, text).model, record.thinking, []);
    PreambleDecodes(record, stamps, s, text);
    MessagesDecode(record, |record.messages|, |start|, stamps, after, text);
    DecodeConcat(s, Lines(start[1..], text), Lines(entries, text), text);
  }

  // ----- The normal form is stable and keeps validity

  lemma {:induction false} NormalCallsStable(calls: seq<ToolCall>, text: Text)
    requires Faithful(text)
    ensures NormalCalls(NormalCalls(calls, text), text) == NormalCalls(calls, text)
    ensures |NormalCalls(calls, text)| == |calls|
    ensures forall k :: 0 <= k < |calls| ==>
      NormalCalls(calls, text)[k] == calls[k].(arguments := Canonical(text, calls[k].arguments))
  {
    if calls != [] {
      var rest := NormalCalls(calls[1..], text);
      NormalCallsStable(calls[1..], text);
      CanonicalStable(calls[0].arguments, text);
      assert NormalCalls(calls, text)[1..] == rest;
    }
  }

  lemma CanonicalStable(t: string, text: Text)
    requires Faithful(text)
    ensures Canonical(text, Canonical(text, t)) == Canonical(text, t)
    ensures ParseOrString(text, Canonical(text, t)) == ParseOrString(text, t)
  {
    assert Plain(ParseOrString(text, t));
  }

  lemma NormalMessageStable(message: Message, id: nat, text: Text)
    requires Faithful(text)
    ensures NormalMessage(NormalMessage(message, id, text), id, text) == NormalMessage(message, id, text)
  {
    match message
    case User(_, _) =>
    case Assistant(_, _, calls, _, _) => NormalCallsStable(calls, text);
    case ToolResult(_, _, _, _, details, _, _, _, _, _) =>
      if details.Some? {
        CanonicalStable(details.value, text);
      }
  }

  lemma {:induction false} NormalMessageAt(messages: seq<Message>, n: nat, i: nat, text: Text)
    requires i < n <= |messages|
    ensures NormalMessages(messages, n, text)[i] == NormalMessage(messages[i], i + 1, text)
  {
    if i < n - 1 {
      NormalMessageAt(messages, n - 1, i, text);
    }
  }

  /** Saving and loading a second time changes nothing more. */
  lemma NormalStable(record: Record, text: Text)
    requires Faithful(text)
    ensures Normal(Normal(record, text), text) == Normal(record, text)
  {
    var once := Normal(record, text).messages;
    var twice := NormalMessages(once, |once|, text);
    forall i | 0 <= i < |once| ensures twice[i] == once[i] {
      NormalMessageAt(once, |once|, i, text);
      NormalMessageAt(record.messages, |once|, i, text);
      NormalMessageStable(record.messages[i], i + 1, text);
    }
    assert twice == once;
  }

  lemma NormalKeepsCalls(messages: seq<Message>, text: Text)
    requires Faithful(text)
    ensures
      var normal := NormalMessages(messages, |messages|, text);
      && (forall i, k :: CallAt(normal, i, k) <==> CallAt(messages, i, k))
      && (forall i, k :: CallAt(messages, i, k) ==>
            normal[i].calls[k].id == messages[i].calls[k].id && normal[i].calls[k].name == messages[i].calls[k].name)
      && (forall j :: ResultAt(normal, j) <==> ResultAt(messages, j))
      && (forall j :: ResultAt(messages, j) ==>
            normal[j].callId == messages[j].callId && normal[j].toolName == messages[j].toolName)
      && (forall i :: 0 <= i < |messages| ==> normal[i].id == i + 1)
  {
    var normal := NormalMessages(messages, |messages|, text);
    forall i | 0 <= i < |messages|
      ensures normal[i] == NormalMessage(messages[i], i + 1, text)
      ensures messages[i].Assistant? ==> |normal[i].calls| == |messages[i].calls|
      ensures messages[i].Assistant? ==> forall k :: 0 <= k < |messages[i].calls| ==>
        normal[i].calls[k].id == messages[i].calls[k].id && normal[i].calls[k].name == messages[i].calls[k].name
    {
      NormalMessageAt(messages, |messages|, i, text);
      if messages[i].Assistant? {
        NormalCallsStable(messages[i].calls, text);
      }
    }
  }

  /** A conversation the kernel accepts is still accepted after saving and loading. */
  lemma NormalValid(messages: seq<Message>, text: Text)
    requires Faithful(text) && |messages| < U64_MAX && Valid(messages)
    ensures Valid(NormalMessages(messages, |messages|, text))
  {
    var normal := NormalMessages(messages, |messages|, text);
    NormalKeepsCalls(messages, text);
    assert forall i, k, j :: Answers(normal, i, k, j) <==> Answers(messages, i, k, j);
    forall j | ResultAt(normal, j) ensures exists i, k :: Answers(normal, i, k, j) {
      assert ResultAt(messages, j);
      var i, k :| Answers(messages, i, k, j);
      assert Answers(normal, i, k, j);
    }
    forall i, k | CallAt(normal, i, k) ensures exists j :: Answers(normal, i, k, j) {
      assert CallAt(messages, i, k);
      var j :| Answers(messages, i, k, j);
      assert Answers(normal, i, k, j);
    }
  }

  // ----- Files written by others

  lemma {:induction false} BlocksPresent(items: seq<Json>, text: Text)
    requires DecodeBlocks(items, text).Ok?
    ensures forall c :: c in DecodeBlocks(items, text).value.1 ==> c.id != ""
  {
    if items != [] {
      var kind := RequiredString(items[0].fields, "type").value;
      BlocksPresent(items[1..], text);
    }
  }

  lemma DecodedPresent(v: Json, id: nat, text: Text)
    requires DecodeMessage(v, id, text).Ok?
    ensures CallIdsPresent(DecodeMessage(v, id, text).value) && DecodeMessage(v, id, text).value.id == id
  {
    var o := v.fields;
    if RequiredString(o, "role") == Ok("assistant") {
      AssistantPresent(o, id, text);
    }
  }

  lemma AssistantPresent(o: Fields, id: nat, text: Text)
    requires DecodeAssistant(o, id, text).Ok?
    ensures DecodeAssistant(o, id, text).value.Assistant? && DecodeAssistant(o, id, text).value.id == id
    ensures CallIdsPresent(DecodeAssistant(o, id, text).value)
  {
    var content := Get(o, "content");
    if content.value.Arr? {
      BlocksPresent(content.value.items, text);
    }
  }

  /** Loaded messages are numbered from one and name their calls. */
  predicate Numbered(messages: seq<Message>) {
    forall i :: 0 <= i < |messages| ==> messages[i].id == i + 1 && CallIdsPresent(messages[i])
  }

  lemma EntryNumbers(s: Loading, v: Json, text: Text)
    requires Numbered(s.messages) && DecodeEntry(s, v, text).Ok?
    ensures Numbered(DecodeEntry(s, v, text).value.messages)
  {
    var o := v.fields;
    if RequiredString(o, "type") == Ok("message") {
      DecodedPresent(o["message"], |s.messages| + 1, text);
    }
  }

  lemma {:induction false} LinesNumber(s: Loading, lines: seq<string>, text: Text)
    requires Numbered(s.messages) && DecodeLines(s, lines, text).Ok?
    ensures Numbered(DecodeLines(s, lines, text).value.messages)
    decreases |lines|
  {
    if lines != [] {
      if !Blank(lines[0]) && text.parse(lines[0]).Some? {
        EntryNumbers(s, text.parse(lines[0]).value, text);
      }
      LinesNumber(DecodeLine(s, lines[0], text).value, lines[1..], text);
    }
  }

  /** Whatever file loads, saving it and loading it again succeeds and yields its normal form. */
  lemma LoadSaveLoad(lines: seq<string>, stamps: nat -> Stamp, text: Text)
    requires Faithful(text) && LoadedFile(lines, text).Ok?
    ensures
      var record := LoadedFile(lines, text).value;
      LoadedFile(Lines(FileEntries(record, stamps, text), text), text) == Ok(Normal(record, text))
      && forall i :: 0 <= i < |record.messages| ==> record.messages[i].id == i + 1
  {
    var record := LoadedFile(lines, text).value;
    var header := DecodeHeader(lines[0], text).value;
    HeaderValid(lines[0], text);
    LinesNumber(LoadedFrom(header), lines[1..], text);
    forall m | m in record.messages ensures CallIdsPresent(m) {
      var i :| 0 <= i < |record.messages| && record.messages[i] == m;
    }
    SaveThenLoad(record, stamps, text);
  }

  lemma HeaderValid(line: string, text: Text)
    requires DecodeHeader(line, text).Ok?
    ensures ValidSessionId(DecodeHeader(line, text).value.id)
  {
  }

  /** Blank, unparsable and unknown lines after the header do not matter, wherever they stand. */
  predicate Ignored(line: string, text: Text) {
    Blank(line) || text.parse(line).None? ||
    (text.parse(line).value.Obj? &&
     var kind := AsText(Get(text.parse(line).value.fields, "type"));
     kind.Some? && kind.value !in {"model_change", "thinking_level_change", "message"})
  }

  lemma IgnoredLineRemovable(header: string, a: seq<string>, line: string, b: seq<string>, text: Text)
    requires Ignored(line, text)
    ensures LoadedFile([header] + (a + [line] + b), text) == LoadedFile([header] + (a + b), text)
  {
    var h := DecodeHeader(header, text);
    assert ([header] + (a + [line] + b))[1..] == a + [line] + b && ([header] + (a + b))[1..] == a + b;
    if h.Ok? {
      var s := LoadedFrom(h.value);
      assert a + [line] + b == a + ([line] + b);
      DecodeConcat(s, a, [line] + b, text);
      DecodeConcat(s, a, b, text);
      var after := DecodeLines(s, a, text);
      if after.Ok? {
        assert ([line] + b)[1..] == b;
        assert DecodeLine(after.value, line, text) == Ok(after.value);
      }
    }
  }

  // ----- Links between entries

  predicate Linked(entry: Json, id: string, parent: Option<string>) {
    && entry.Obj?
    && Get(entry.fields, "id") == Some(Str(id))
    && Get(entry.fields, "parentId") == Some(OptionalString(parent))
  }

  lemma {:induction false} MessageEntriesLinked(record: Record, n: nat, first: nat, stamps: nat -> Stamp, text: Text,
      i: nat)
    requires n <= |record.messages| && first >= 1
    ensures |MessageEntries(record, n, first, stamps, text)| == n
    ensures i < n ==>
      Linked(MessageEntries(record, n, first, stamps, text)[i], stamps(first + i).id, Some(stamps(first + i - 1).id))
    decreases n
  {
    if n > 0 {
      MessageEntriesLinked(record, n - 1, first, stamps, text, i);
      var (stamp, parent) := (stamps(first + n - 1), Some(stamps(first + n - 2).id));
      assert Linked(MessageEntry(record.messages[n - 1], record.model, stamp, parent, text), stamp.id, parent);
    }
  }

  /** Every entry after the header names the entry before it; the first names none. */
  lemma EntriesLinked(record: Record, stamps: nat -> Stamp, text: Text, i: nat)
    requires 1 <= i < |FileEntries(record, stamps, text)|
    ensures Linked(FileEntries(record, stamps, text)[i], stamps(i).id, if i == 1 then None else Some(stamps(i - 1).id))
  {
    var start := Preamble(record, stamps);
    PreambleLinked(record, stamps);
    MessageEntriesLinked(record, |record.messages|, |start|, stamps, text, if i >= |start| then i - |start| else 0);
  }

  function HexDigit(d: nat): char
    requires d < 16
  {
    "0123456789abcdef"[d]
  }

  function Hex(n: nat): (digits: string)
    ensures digits != ""
  {
    if n < 16 then [HexDigit(n)] else Hex(n / 16) + [HexDigit(n % 16)]
  }

  function Zeros(n: nat): string { if n == 0 then "" else Zeros(n - 1) + "0" }

  /** The identifier of the entry that draws counter value `n`: eight hexadecimal digits, or more if it needs them. */
  function EntryId(n: nat): string { (if |Hex(n)| < 8 then Zeros(8 - |Hex(n)|) else "") + Hex(n) }

  function HexValue(digits: string): nat {
    if digits == "" then 0
    else
      var last := digits[|digits| - 1];
      HexValue(digits[..|digits| - 1]) * 16
      + (if '0' <= last <= '9' then last as int - '0' as int
         else if last >= 'a' then last as int - 'a' as int + 10
         else 0)
  }

  lemma {:induction false} ZerosAreWorthless(n: nat)
    ensures HexValue(Zeros(n)) == 0
  {
    if n > 0 {
      ZerosAreWorthless(n - 1);
      assert Zeros(n)[..|Zeros(n)| - 1] == Zeros(n - 1);
    }
  }

  lemma {:induction false} HexReads(prefix: string, n: nat)
    requires HexValue(prefix) == 0
    ensures HexValue(prefix + Hex(n)) == n
  {
    if n < 16 {
      ReadDigit(prefix, n);
    } else {
      HexReads(prefix, n / 16);
      ReadDigit(prefix + Hex(n / 16), n % 16);
      assert prefix + Hex(n) == prefix + Hex(n / 16) + [HexDigit(n % 16)];
    }
  }

  lemma ReadDigit(digits: string, d: nat)
    requires d < 16
    ensures HexValue(digits + [HexDigit(d)]) == HexValue(digits) * 16 + d
  {
    assert (digits + [HexDigit(d)])[..|digits|] == digits;
  }

  /** Different counter values give different identifiers. */
  lemma EntryIdsDiffer(n: nat, m: nat)
    ensures EntryId(n) == EntryId(m) <==> n == m
  {
    ZerosAreWorthless(if |Hex(n)| < 8 then 8 - |Hex(n)| else 0);
    ZerosAreWorthless(if |Hex(m)| < 8 then 8 - |Hex(m)| else 0);
    HexReads(if |Hex(n)| < 8 then Zeros(8 - |Hex(n)|) else "", n);
    HexReads(if |Hex(m)| < 8 then Zeros(8 - |Hex(m)|) else "", m);
  }

  /** The stamps draw their identifiers from a counter, one after the other. */
  ghost predicate Counted(stamps: nat -> Stamp, counter: nat) {
    forall i: nat :: stamps(i).id == EntryId(counter + i)
  }

  lemma StampsDiffer(stamps: nat -> Stamp, counter: nat, i: nat, j: nat)
    requires Counted(stamps, counter) && i != j
    ensures stamps(i).id != stamps(j).id
  {
    EntryIdsDiffer(counter + i, counter + j);
  }

  /** No two entries of a saved file have the same identifier. */
  lemma EntriesHaveOwnIds(record: Record, stamps: nat -> Stamp, counter: nat, text: Text, i: nat, j: nat)
    requires Counted(stamps, counter) && 1 <= i < j < |FileEntries(record, stamps, text)|
    ensures OwnId(FileEntries(record, stamps, text)[i], FileEntries(record, stamps, text)[j])
  {
    StampsDiffer(stamps, counter, i, j);
    EntriesDiffer(record, stamps, text, i, j);
  }

  predicate OwnId(e: Json, f: Json) {
    e.Obj? && f.Obj? && Get(e.fields, "id").Some? && Get(e.fields, "id") != Get(f.fields, "id")
  }

  lemma EntriesDiffer(record: Record, stamps: nat -> Stamp, text: Text, i: nat, j: nat)
    requires 1 <= i < |FileEntries(record, stamps, text)| && 1 <= j < |FileEntries(record, stamps, text)|
    requires stamps(i).id != stamps(j).id
    ensures OwnId(FileEntries(record, stamps, text)[i], FileEntries(record, stamps, text)[j])
  {
    EntriesLinked(record, stamps, text, i);
    EntriesLinked(record, stamps, text, j);
  }

  lemma PreambleLinked(record: Record, stamps: nat -> Stamp)
    ensures
      var start := Preamble(record, stamps);
      forall i :: 1 <= i < |start| ==> Linked(start[i], stamps(i).id, if i == 1 then None else Some(stamps(i - 1).id))
  {
    if record.model.Some? {
      assert Linked(ModelEntry(record.model.value, stamps(1), None), stamps(1).id, None);
      var parent := Some(stamps(1).id);
      assert Linked(ThinkingEntry(record.thinking, stamps(2), parent), stamps(2).id, parent);
    } else {
      assert Linked(ThinkingEntry(record.thinking, stamps(1), None), stamps(1).id, None);
    }
  }
}
