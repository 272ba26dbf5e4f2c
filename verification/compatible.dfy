/** The adapter for OpenAI-compatible chat servers: reading a response's message, and
    replaying a transcript. */
module Compatible {
  import opened Json
  import opened Types
  import opened Transcript
  import opened Wire
  import opened Dialogue
  import Base64
  import Sessions
  import SyntheticIds

  const MALFORMED := Thrown("malformed_response")

  // ---- reading a response ----

  predicate Absent(value: Json, key: string)
  {
    Missing(value, key) || Find(value, key).value.Null?
  }

  function ImageUrl(url: string): (part: Json)
  {
    Obj(map["type" := Str("image_url"), "image_url" := Obj(map["url" := Str(url)])])
  }

  function ReadPart(part: Json): (content: Result<Content, Failure>)
  {
    if !part.Obj? || !StringOrMissing(part, "type") then Err(MALFORMED)
    else if StringField(part, "type") == "text" then
      if HasString(part, "text") then Ok(Text(StringField(part, "text"))) else Err(MALFORMED)
    else if StringField(part, "type") == "image_url" then
      match Find(part, "image_url")
      case Some(image) =>
        if StringField(image, "url") == [] then Err(MALFORMED)
        else Ok(Media("image", ImageUrl(StringField(image, "url"))))
      case None => Err(MALFORMED)
    else Ok(Extension("openai_compatible", part))
  }

  function ReadContents(native: Json): (contents: Result<seq<Content>, Failure>)
  {
    match Find(native, "content")
    case None => Ok([])
    case Some(Null) => Ok([])
    case Some(Str(text)) => Ok([Text(text)])
    case Some(Arr(parts)) => All(parts, ReadPart)
    case Some(_) => Err(MALFORMED)
  }

  function CallWith(id: string, form: Json, parse: string -> Option<Json>, metadata: Json): (call: ToolCall)
  {
    var raw := StringField(form, "arguments");
    var arguments := ParsedArguments(raw, parse);
    ToolCall(id, StringField(form, "name"), arguments.value, raw, arguments.valid, metadata)
  }

  function CallOf(entry: Json, parse: string -> Option<Json>): (call: ToolCall)
    requires Find(entry, "function").Some?
  {
    CallWith(StringField(entry, "id"), Find(entry, "function").value, parse, entry)
  }

  function ReadCall(entry: Json, parse: string -> Option<Json>): (call: Result<ToolCall, Failure>)
    ensures call.Ok? ==>
              && Find(entry, "function").Some? && call.value == CallOf(entry, parse)
              && call.value.id != [] && call.value.name != []
  {
    if !entry.Obj? || StringField(entry, "id") == [] || !HasString(entry, "type")
       || Missing(entry, "function") || !Find(entry, "function").value.Obj?
    then Err(MALFORMED)
    else if StringField(entry, "type") != "function" then Err(Thrown("unsupported_tool_call"))
    else
      var form := Find(entry, "function").value;
      if StringField(form, "name") == [] || !HasString(form, "arguments") then Err(MALFORMED)
      else Ok(CallOf(entry, parse))
  }

  /** The entries of the list of calls; an absent list has none. */
  function Entries(native: Json): (entries: Option<seq<Json>>)
  {
    if Absent(native, "tool_calls") then Some([])
    else
      match Find(native, "tool_calls").value
      case Arr(entries) => Some(entries)
      case _ => None
  }

  function ReadCalls(native: Json, parse: string -> Option<Json>): (calls: Result<seq<ToolCall>, Failure>)
  {
    match Entries(native)
    case None => Err(MALFORMED)
    case Some(entries) => All(entries, entry => ReadCall(entry, parse))
  }

  function LegacyMetadata(form: Json): (metadata: Json)
  {
    Obj(map["legacy_function_call" := Bool(true), "function_call" := form])
  }

  function LegacyCall(form: Json, origin: Origin, parse: string -> Option<Json>): (call: ToolCall)
  {
    CallWith(SyntheticIds.LegacyId(origin.run, origin.messages), form, parse, LegacyMetadata(form))
  }

  /** The calls, with the legacy call standing in when there are none. */
  function WithLegacy(native: Json, calls: seq<ToolCall>, origin: Origin, parse: string -> Option<Json>)
    : (all: Result<seq<ToolCall>, Failure>)
  {
    if Absent(native, "function_call") then Ok(calls)
    else
      var form := Find(native, "function_call").value;
      if StringField(form, "name") == [] || !HasString(form, "arguments") then Err(MALFORMED)
      else if calls == [] then Ok([LegacyCall(form, origin, parse)])
      else Ok(calls)
  }

  function WithRefusal(native: Json, contents: seq<Content>): (all: seq<Content>)
  {
    if contents == [] && HasString(native, "refusal") then [Text(StringField(native, "refusal"))] else contents
  }

  predicate AudioShaped(audio: Json)
  {
    && StringField(audio, "id") != [] && HasString(audio, "data") && StringOrMissing(audio, "transcript")
    && (Missing(audio, "expires_at") || Find(audio, "expires_at").value.Int?)
  }

  function AudioContent(audio: Json, bytes: seq<Base64.byte>): (content: Content)
    requires audio.Obj?
  {
    Media("audio", Obj(map["data" := Str(Base64.Encoded(bytes)), "mediaType" := Str("application/octet-stream"),
                           "options" := Obj(audio.members - {"data"})]))
  }

  /** The contents, with the audio behind them and its transcript standing in for text. */
  function WithAudio(native: Json, contents: seq<Content>): (all: Result<seq<Content>, Failure>)
  {
    if Absent(native, "audio") then Ok(contents)
    else
      var audio := Find(native, "audio").value;
      if !AudioShaped(audio) then Err(MALFORMED)
      else
        var bytes := Base64.DecodedText(StringField(audio, "data"));
        if bytes.None? || bytes.value == [] then Err(Thrown("malformed_audio"))
        else
          var transcript := StringField(audio, "transcript");
          var said := if contents == [] && transcript != [] then [Text(transcript)] else contents;
          Ok(said + [AudioContent(audio, bytes.value)])
  }

  function Native(body: Json): (native: Option<Json>)
    ensures native.Some? ==> native.value.Obj?
  {
    match Find(body, "choices")
    case Some(Arr(choices)) =>
      if choices == [] then None
      else
        (match Find(choices[0], "message")
         case Some(Obj(members)) => Some(Obj(members))
         case _ => None)
    case _ => None
  }

  function Metadata(native: Json): (metadata: Json)
  {
    Obj(map["provider" := Str("openai_compatible"), "message" := native])
  }

  function ParsedMessage(native: Json, origin: Origin, parse: string -> Option<Json>)
    : (parsed: Result<Message, Failure>)
  {
    match ReadContents(native)
    case Err(e) => Err(e)
    case Ok(contents) =>
      match ReadCalls(native, parse)
      case Err(e) => Err(e)
      case Ok(listed) =>
        match WithLegacy(native, listed, origin, parse)
        case Err(e) => Err(e)
        case Ok(calls) =>
          match WithAudio(native, WithRefusal(native, contents))
          case Err(e) => Err(e)
          case Ok(all) => Ok(AssistantMessage(all, calls, Metadata(native)))
  }

  function ParsedResponse(body: Json, origin: Origin, parse: string -> Option<Json>)
    : (parsed: Result<Message, Failure>)
  {
    match Native(body)
    case None => Err(MALFORMED)
    case Some(native) => ParsedMessage(native, origin, parse)
  }

  method ParseResponse(body: Json, origin: Origin, parse: string -> Option<Json>)
    returns (parsed: Result<Message, Failure>)
    ensures parsed == ParsedResponse(body, origin, parse)
  {
    hide ReadPart, ReadCall, WithAudio, WithLegacy, All;
    var choice := Native(body);
    if choice.None? { return Err(MALFORMED); }
    var native := choice.value;
    var contents := ParseContents(native);
    if contents.Err? { return Err(contents.error); }
    var calls := ParseCalls(native, parse);
    if calls.Err? { return Err(calls.error); }
    calls := WithLegacy(native, calls.value, origin, parse);
    if calls.Err? { return Err(calls.error); }
    contents := WithAudio(native, WithRefusal(native, contents.value));
    if contents.Err? { return Err(contents.error); }
    parsed := Ok(AssistantMessage(contents.value, calls.value, Metadata(native)));
  }

  method ParseContents(native: Json) returns (contents: Result<seq<Content>, Failure>)
    ensures contents == ReadContents(native)
  {
    hide ReadPart, All;
    var content := Find(native, "content");
    if content.Some? && content.value.Str? { return Ok([Text(content.value.text)]); }
    if content.Some? && content.value.Arr? {
      contents := ConvertAll(content.value.items, ReadPart);
      return;
    }
    if !Absent(native, "content") { return Err(MALFORMED); }
    contents := Ok([]);
  }

  method ParseCalls(native: Json, parse: string -> Option<Json>) returns (calls: Result<seq<ToolCall>, Failure>)
    ensures calls == ReadCalls(native, parse)
  {
    hide ReadCall, All;
    var entries := Entries(native);
    if entries.None? { return Err(MALFORMED); }
    calls := ConvertAll(entries.value, entry => ReadCall(entry, parse));
  }

  // ---- replaying a transcript ----

  predicate HasNative(message: Message)
  {
    StringField(message.metadata, "provider") == "openai_compatible"
    && Find(message.metadata, "message").Some? && Find(message.metadata, "message").value.Obj?
  }

  /** The native message as it may be sent back: audio is reduced to its id. */
  function Reduced(native: Json): (reduced: Result<Json, Failure>)
    requires native.Obj?
  {
    var audio := Find(native, "audio");
    if audio.None? || !audio.value.Obj? then Ok(native)
    else if StringField(audio.value, "id") == [] then Err(MALFORMED)
    else Ok(Obj(native.members["audio" := Obj(map["id" := Str(StringField(audio.value, "id"))])]))
  }

  /** The wire form of a content part. A media part carries its wire form, null when the
      format has none for it; audio carries its data, media type and options. */
  function PartOf(content: Content): (part: Result<Json, Failure>)
  {
    match content
    case Text(value) => Ok(Obj(map["type" := Str("text"), "text" := Str(value)]))
    case Extension(provider, data) =>
      if provider == "openai_compatible" then Ok(data) else Err(Thrown("unsupported_content"))
    case Media(kind, wire) =>
      if wire == Null then Err(Thrown("unsupported_content"))
      else if kind == "audio" then InputAudio(wire)
      else Ok(wire)
  }

  /** The format of audio: an option, or what the media type says. */
  function ChatAudioFormat(wire: Json): (format: Result<string, Failure>)
  {
    var options := if Missing(wire, "options") then EMPTY_OBJECT else Find(wire, "options").value;
    var mediaType := StringField(wire, "mediaType");
    if !Missing(options, "format") then
      if StringField(options, "format") == [] then Err(Thrown("invalid_audio_format"))
      else Ok(StringField(options, "format"))
    else if mediaType == "audio/mpeg" || mediaType == "audio/mp3" then Ok("mp3")
    else if mediaType == "audio/wav" || mediaType == "audio/wave" || mediaType == "audio/x-wav" then Ok("wav")
    else Err(Thrown("unsupported_audio_format"))
  }

  function InputAudio(wire: Json): (part: Result<Json, Failure>)
  {
    match ChatAudioFormat(wire)
    case Err(e) => Err(e)
    case Ok(format) =>
      Ok(Obj(map["type" := Str("input_audio"),
                 "input_audio" := Obj(map["data" := Str(StringField(wire, "data")), "format" := Str(format)])]))
  }

  function MessageContent(contents: seq<Content>): (content: Result<Json, Failure>)
  {
    if |contents| == 1 && contents[0].Text? then Ok(Str(contents[0].value))
    else
      match All(contents, PartOf)
      case Err(e) => Err(e)
      case Ok(parts) => Ok(Arr(parts))
  }

  function TextPart(content: Content): (text: Result<string, Failure>)
  {
    if content.Text? then Ok(content.value) else Err(Thrown("unsupported_content"))
  }

  function Concatenated(texts: seq<string>): (text: string)
  {
    if texts == [] then [] else texts[0] + Concatenated(texts[1..])
  }

  /** A tool result has to be text. */
  function ToolContent(contents: seq<Content>): (text: Result<string, Failure>)
  {
    match All(contents, TextPart)
    case Err(e) => Err(e)
    case Ok(texts) => Ok(Concatenated(texts))
  }

  predicate IsLegacy(metadata: Json)
  {
    Find(metadata, "legacy_function_call") == Some(Bool(true))
  }

  function ToolAnswer(message: Message, text: string): (answer: Json)
  {
    Obj(if IsLegacy(message.metadata)
        then map["role" := Str("function"), "name" := Str(message.toolName), "content" := Str(text)]
        else map["role" := Str("tool"), "tool_call_id" := Str(message.callId), "content" := Str(text)])
  }

  function CallEntry(call: ToolCall): (entry: Json)
  {
    Obj(map["id" := Str(call.id), "type" := Str("function"),
            "function" := Obj(map["name" := Str(call.name), "arguments" := Str(call.rawArguments)])])
  }

  function CallEntries(calls: seq<ToolCall>): (entries: seq<Json>)
    ensures |entries| == |calls|
  {
    seq(|calls|, i requires 0 <= i < |calls| => CallEntry(calls[i]))
  }

  /** What one message puts on the wire: at most one message of the format. */
  function MessagesOf(message: Message): (messages: Result<seq<Json>, Failure>)
  {
    if message.role.SystemRole? then Ok([])
    else if message.role.AssistantRole? && HasNative(message) then
      match Reduced(Find(message.metadata, "message").value)
      case Err(e) => Err(e)
      case Ok(native) => Ok([native])
    else if message.role.ToolRole? then
      match ToolContent(message.contents)
      case Err(e) => Err(e)
      case Ok(text) => Ok([ToolAnswer(message, text)])
    else
      match MessageContent(message.contents)
      case Err(e) => Err(e)
      case Ok(content) =>
        var role := if message.role.AssistantRole? then "assistant" else "user";
        var said := map["role" := Str(role), "content" := content];
        Ok([Obj(if message.role.AssistantRole? && message.calls != []
                then said["tool_calls" := Arr(CallEntries(message.calls))] else said)])
  }

  method AppendHistory(list: ItemList, message: Message) returns (error: Option<Failure>)
    modifies list
    ensures match MessagesOf(message)
            case Err(e) => error == Some(e)
            case Ok(messages) => error == None && list.items == old(list.items) + messages
  {
    hide MessageContent, ToolContent, ToolAnswer, Reduced;
    error := None;
    if message.role.SystemRole? {
      assert list.items == old(list.items) + [];
      return;
    }
    if message.role.AssistantRole? && HasNative(message) {
      var native := Reduced(Find(message.metadata, "message").value);
      if native.Err? { return Some(native.error); }
      list.Push(native.value);
      return;
    }
    if message.role.ToolRole? {
      var text := ToolContent(message.contents);
      if text.Err? { return Some(text.error); }
      list.Push(ToolAnswer(message, text.value));
      return;
    }
    var content := MessageContent(message.contents);
    if content.Err? { return Some(content.error); }
    var role := if message.role.AssistantRole? then "assistant" else "user";
    var said := map["role" := Str(role), "content" := content.value];
    if message.role.AssistantRole? && message.calls != [] {
      var entries: seq<Json> := [];
      for i := 0 to |message.calls|
        invariant entries == CallEntries(message.calls)[..i]
        invariant list.items == old(list.items)
      {
        entries := entries + [CallEntry(message.calls[i])];
      }
      assert entries == CallEntries(message.calls);
      said := said["tool_calls" := Arr(entries)];
    }
    list.Push(Obj(said));
  }

  /** The messages of a request, behind the system instruction. */
  method RenderHistory(history: seq<Message>) returns (messages: Result<seq<Json>, Failure>)
    ensures messages == Collected(history, MessagesOf)
  {
    var list := new ItemList();
    hide MessagesOf;
    for i := 0 to |history|
      invariant Collected(history[..i], MessagesOf) == Ok(list.items)
    {
      assert history[..i + 1][..i] == history[..i];
      var error := AppendHistory(list, history[i]);
      if error.Some? {
        FirstBadMessage(history, MessagesOf, i + 1, error.value);
        return Err(error.value);
      }
    }
    assert history[..|history|] == history;
    messages := Ok(list.items);
  }

  // ---- parsing and replaying fit together ----

  /** The normalized calls are the entries of the native list, in order; without any, the
      legacy call is the only one, under a made-up id. */
  lemma {:induction false} CallsAreNative(native: Json, origin: Origin, parse: string -> Option<Json>)
    requires ParsedMessage(native, origin, parse).Ok?
    ensures Entries(native).Some?
    ensures var calls, entries := ParsedMessage(native, origin, parse).value.calls, Entries(native).value;
            && (entries != [] ==>
                  && |calls| == |entries|
                  && forall k | 0 <= k < |calls| ::
                       && Find(entries[k], "function").Some? && calls[k] == CallOf(entries[k], parse)
                       && calls[k].id != [] && calls[k].name != [])
            && (entries == [] ==>
                  calls == if Absent(native, "function_call") then []
                           else [LegacyCall(Find(native, "function_call").value, origin, parse)])
  {
    hide ReadContents, WithAudio, ReadCall, LegacyCall, CallOf;
    var entries := Entries(native).value;
    var listed := ReadCalls(native, parse).value;
    forall k | 0 <= k < |entries|
      ensures Find(entries[k], "function").Some? && listed[k] == CallOf(entries[k], parse)
              && listed[k].id != [] && listed[k].name != []
    {
      assert ReadCall(entries[k], parse) == Ok(listed[k]);
    }
  }

  /** A parsed response always can be sent back, as its native message in which audio, if
      any, is reduced to its id. */
  lemma {:induction false} ReplayIsFaithful(body: Json, origin: Origin, parse: string -> Option<Json>)
    requires ParsedResponse(body, origin, parse).Ok?
    ensures Native(body).Some?
    ensures var native := Native(body).value;
            var sent := MessagesOf(ParsedResponse(body, origin, parse).value);
            && sent.Ok? && |sent.value| == 1 && sent.value[0].Obj?
            && sent.value[0].members.Keys == native.members.Keys
            && (forall field | field in native.members && field != "audio" ::
                  sent.value[0].members[field] == native.members[field])
            && ("audio" in native.members ==>
                  sent.value[0].members["audio"]
                  == if native.members["audio"].Null? then Null
                     else Obj(map["id" := Str(StringField(native.members["audio"], "id"))]))
  {
    hide ReadContents, ReadCalls, WithLegacy, WithRefusal, Base64.DecodedText;
    var native := Native(body).value;
    assert HasNative(ParsedResponse(body, origin, parse).value);
    assert !Absent(native, "audio") ==> AudioShaped(native.members["audio"]);
  }

  /** What a content says about the part it came from. */
  predicate Shows(part: Json, content: Content)
  {
    match content
    case Text(text) => StringField(part, "type") == "text" && Find(part, "text") == Some(Str(text))
    case Media(kind, wire) =>
      && kind == "image" && StringField(part, "type") == "image_url"
      && Find(part, "image_url").Some? && Find(wire, "image_url").Some?
      && StringField(Find(wire, "image_url").value, "url") == StringField(Find(part, "image_url").value, "url") != []
    case Extension(provider, data) =>
      provider == "openai_compatible" && data == part
      && StringField(part, "type") != "text" && StringField(part, "type") != "image_url"
  }

  /** The parts of a list of contents come first among the contents, in order; only a
      response without any shows its refusal or its transcript as text. */
  lemma {:induction false} ContentsShowParts(native: Json, origin: Origin, parse: string -> Option<Json>)
    requires ParsedMessage(native, origin, parse).Ok?
    requires Find(native, "content").Some? && Find(native, "content").value.Arr?
    ensures var contents := ParsedMessage(native, origin, parse).value.contents;
            var parts := Find(native, "content").value.items;
            && |parts| <= |contents|
            && (forall k | 0 <= k < |parts| :: Shows(parts[k], contents[k]))
            && (parts != [] ==> |contents| == |parts| + if Absent(native, "audio") then 0 else 1)
  {
    hide ReadCalls, WithLegacy, AudioShaped, AudioContent, Base64.DecodedText, Shows;
    var parts := Find(native, "content").value.items;
    var contents := ReadContents(native).value;
    forall k | 0 <= k < |parts| ensures Shows(parts[k], contents[k]) {
      assert ReadPart(parts[k]) == Ok(contents[k]);
      PartShown(parts[k]);
    }
    hide ReadPart, All;
  }

  lemma {:induction false} PartShown(part: Json)
    requires ReadPart(part).Ok?
    ensures Shows(part, ReadPart(part).value)
  {
  }

  /** The audio of a parsed response is the last content, and its bytes are those sent. */
  lemma {:induction false} AudioIsKept(native: Json, origin: Origin, parse: string -> Option<Json>)
    requires ParsedMessage(native, origin, parse).Ok? && !Absent(native, "audio")
    ensures var contents := ParsedMessage(native, origin, parse).value.contents;
            && contents != [] && contents[|contents| - 1].Media?
            && var audio, kept := Find(native, "audio").value, contents[|contents| - 1].payload;
               && audio.Obj?
               && StringField(kept, "data") == Base64.Compact(StringField(audio, "data")) != []
               && Find(kept, "options") == Some(Obj(audio.members - {"data"}))
  {
    hide ReadContents, ReadCalls, WithLegacy, WithRefusal, Base64.Compact, Base64.Decoded, Base64.Encoded;
    var data := StringField(Find(native, "audio").value, "data");
    Base64.DecodedExact(Base64.Compact(data), Base64.DecodedText(data).value);
  }

  // ---- calls and their answers stay paired ----

  /** What a message amounts to: listed calls and tool messages are matched by id, a legacy
      call and a function message by name. */
  function MarkOf(message: Json): (mark: Mark)
  {
    var role := StringField(message, "role");
    if role == "tool" then Reply(Key("", StringField(message, "tool_call_id")))
    else if role == "function" then Reply(Key(StringField(message, "name"), ""))
    else if role == "user" then UserTurn
    else
      match Entries(message)
      case None => Other
      case Some(entries) =>
        if entries != [] then Ask(EntryKeys(entries))
        else if Absent(message, "function_call") then Other
        else Ask([Key(StringField(Find(message, "function_call").value, "name"), "")])
  }

  function EntryKeys(entries: seq<Json>): (keys: seq<Key>)
    ensures |keys| == |entries|
  {
    seq(|entries|, i requires 0 <= i < |entries| => Key("", StringField(entries[i], "id")))
  }

  function KeyOf(id: string, name: string, metadata: Json): (key: Key)
  {
    if IsLegacy(metadata) then Key(name, "") else Key("", id)
  }

  /** The result of a listed call goes back under the call's id exactly when the server did
      not itself mark the call as a legacy one; otherwise it goes back under the name only. */
  lemma {:induction false} AnsweredByIdExactly(native: Json, origin: Origin, parse: string -> Option<Json>, k: nat,
                                               answer: Message)
    requires ParsedMessage(native, origin, parse).Ok?
    requires Entries(native).Some? && k < |Entries(native).value|
    requires k < |ParsedMessage(native, origin, parse).value.calls|
    requires var call := ParsedMessage(native, origin, parse).value.calls[k];
             answer.role.ToolRole? && answer.callId == call.id && answer.toolName == call.name
             && answer.metadata == call.metadata
    requires MessagesOf(answer).Ok?
    ensures var entry, sent := Entries(native).value[k], MessagesOf(answer).value;
            && |sent| == 1
            && (MarkOf(sent[0]) == Reply(Key("", StringField(entry, "id")))
                <==> Find(entry, "legacy_function_call") != Some(Bool(true)))
  {
    CallsAreNative(native, origin, parse);
    hide ParsedMessage, Entries;
    var entry := Entries(native).value[k];
    assert answer.metadata == entry && answer.callId == StringField(entry, "id") != [];
    AnswerMark(answer);
  }

  lemma {:induction false} AnswerMark(answer: Message)
    requires answer.role.ToolRole? && MessagesOf(answer).Ok?
    ensures |MessagesOf(answer).value| == 1
    ensures MarkOf(MessagesOf(answer).value[0]) == Reply(KeyOf(answer.callId, answer.toolName, answer.metadata))
  {
    hide ToolContent;
  }

  const MARKED_ENTRY :=
    Obj(map["id" := Str("c"), "type" := Str("function"), "legacy_function_call" := Bool(true),
            "function" := Obj(map["name" := Str("f"), "arguments" := Str("{}")])])

  /** A server that marks a listed call so gets an answer it cannot match by id. */
  lemma {:induction false} MarkedCallLosesItsId(origin: Origin, parse: string -> Option<Json>, answer: Message)
    requires answer.role.ToolRole? && answer.callId == "c" && answer.toolName == "f" && answer.metadata == MARKED_ENTRY
    requires MessagesOf(answer).Ok?
    ensures var native := Obj(map["tool_calls" := Arr([MARKED_ENTRY])]);
            && ParsedMessage(native, origin, parse).Ok? && !Answerable(native)
            && ParsedMessage(native, origin, parse).value.calls == [CallOf(MARKED_ENTRY, parse)]
            && MarkOf(native) == Ask([Key("", "c")])
            && |MessagesOf(answer).value| == 1 && MarkOf(MessagesOf(answer).value[0]) == Reply(Key("f", ""))
  {
    var native := Obj(map["tool_calls" := Arr([MARKED_ENTRY])]);
    MarkedEntry(parse);
    hide ReadCall, IsLegacy, CallOf;
    assert Entries(native) == Some([MARKED_ENTRY]) && StringField(native, "role") == "";
    MarkedIsRead(native, MARKED_ENTRY, origin, parse);
    MarkedIsAsked(native, MARKED_ENTRY);
    MarkedAnswer(answer);
  }

  lemma {:induction false} MarkedEntry(parse: string -> Option<Json>)
    ensures IsLegacy(MARKED_ENTRY) && StringField(MARKED_ENTRY, "id") == "c" && ReadCall(MARKED_ENTRY, parse).Ok?
  {
    hide CallOf;
  }

  lemma {:induction false} MarkedIsAsked(native: Json, entry: Json)
    requires StringField(native, "role") == "" && Entries(native) == Some([entry]) && IsLegacy(entry)
    ensures MarkOf(native) == Ask([Key("", StringField(entry, "id"))]) && !Answerable(native)
  {
    hide Entries, IsLegacy;
    assert EntryKeys([entry]) == [Key("", StringField(entry, "id"))];
    assert Entries(native).value[0] == entry;
  }

  lemma {:induction false} MarkedAnswer(answer: Message)
    requires answer.role.ToolRole? && IsLegacy(answer.metadata) && MessagesOf(answer).Ok?
    ensures |MessagesOf(answer).value| == 1
    ensures MarkOf(MessagesOf(answer).value[0]) == Reply(Key(answer.toolName, ""))
  {
    AnswerMark(answer);
    hide MessagesOf, MarkOf, IsLegacy;
  }

  lemma {:induction false} MarkedIsRead(native: Json, entry: Json, origin: Origin, parse: string -> Option<Json>)
    requires ReadCall(entry, parse).Ok? && Entries(native) == Some([entry])
    requires Absent(native, "content") && Absent(native, "function_call") && Absent(native, "audio")
    ensures ParsedMessage(native, origin, parse).Ok?
    ensures ParsedMessage(native, origin, parse).value.calls == [CallOf(entry, parse)]
  {
    OneOnly([entry], e => ReadCall(e, parse), CallOf(entry, parse));
    hide All, CallOf, ReadCall;
  }

  lemma {:induction false} OneOnly<S, T>(items: seq<S>, one: S -> Result<T, Failure>, value: T)
    requires |items| == 1 && one(items[0]) == Ok(value)
    ensures All(items, one) == Ok([value])
  {
    assert items[..|items| - 1] == [];
    assert All(items[..|items| - 1], one) == Ok([]);
    assert [] + [value] == [value];
  }

  /** A native message whose calls will be answered: under a role of the model, or of the user
      without calls, and with no listed call marked as legacy. */
  predicate Answerable(native: Json)
  {
    var role := StringField(native, "role");
    && role != "tool" && role != "function"
    && (role == "user" ==> Entries(native) == Some([]) && Absent(native, "function_call"))
    && (Entries(native).Some? ==>
          forall i | 0 <= i < |Entries(native).value| :: !IsLegacy(Entries(native).value[i]))
  }

  predicate MessageAnswerable(message: Message)
  {
    HasNative(message) ==> Answerable(Find(message.metadata, "message").value)
  }

  ghost predicate FromResponse(message: Message, parse: string -> Option<Json>)
  {
    exists body, origin ::
      ParsedResponse(body, origin, parse).Ok? && ParsedResponse(body, origin, parse).value == message
  }

  ghost predicate Sound(message: Message, parse: string -> Option<Json>)
  {
    message.role.AssistantRole? ==> FromResponse(message, parse)
  }

  /** Sending a message back with its audio reduced does not change what it asks for. */
  lemma {:induction false} ReducedAsks(native: Json)
    requires native.Obj? && Reduced(native).Ok?
    ensures MarkOf(Reduced(native).value) == MarkOf(native)
  {
    hide EntryKeys;
    var reduced := Reduced(native).value;
    assert forall key | key != "audio" :: Find(reduced, key) == Find(native, key);
    assert |"audio"| != |"role"|;
  }

  /** Under a role of the model a message asks for as many calls as were read from it, and
      for exactly these unless one is marked as legacy. */
  lemma {:induction false} AskedByNative(native: Json, origin: Origin, parse: string -> Option<Json>)
    requires ParsedMessage(native, origin, parse).Ok?
    requires StringField(native, "role") !in {"tool", "function", "user"}
    ensures var keys := CallKeys(ParsedMessage(native, origin, parse).value.calls, KeyOf);
            && Next([], MarkOf(native)).Some? && |Next([], MarkOf(native)).value| == |keys|
            && (Next([], MarkOf(native)).value == keys <==> Answerable(native))
  {
    CallsAreNative(native, origin, parse);
    hide ParsedMessage, LegacyCall;
    var calls, entries := ParsedMessage(native, origin, parse).value.calls, Entries(native).value;
    var keys := CallKeys(calls, KeyOf);
    if entries != [] {
      KeysOfEntries(entries, calls, parse);
      assert [] + EntryKeys(entries) == EntryKeys(entries);
    } else if !Absent(native, "function_call") {
      LegacyKey(Find(native, "function_call").value, origin, parse);
      assert keys == [Key(StringField(Find(native, "function_call").value, "name"), "")];
      assert [] + keys == keys;
    }
  }

  lemma {:induction false} LegacyKey(form: Json, origin: Origin, parse: string -> Option<Json>)
    ensures var call := LegacyCall(form, origin, parse);
            KeyOf(call.id, call.name, call.metadata) == Key(StringField(form, "name"), "")
  {
    hide SyntheticIds.LegacyId;
    assert IsLegacy(LegacyMetadata(form));
  }

  lemma {:induction false} KeysOfEntries(entries: seq<Json>, calls: seq<ToolCall>, parse: string -> Option<Json>)
    requires |calls| == |entries|
    requires forall k | 0 <= k < |calls| ::
               Find(entries[k], "function").Some? && calls[k] == CallOf(entries[k], parse) && calls[k].id != []
    ensures EntryKeys(entries) == CallKeys(calls, KeyOf)
            <==> forall i | 0 <= i < |entries| :: !IsLegacy(entries[i])
  {
    hide IsLegacy, CallOf;
    forall k | 0 <= k < |entries|
      ensures EntryKeys(entries)[k] == CallKeys(calls, KeyOf)[k] <==> !IsLegacy(entries[k])
    {
      CallOfEntry(entries[k], parse);
      assert CallKeys(calls, KeyOf)[k] == KeyOf(calls[k].id, calls[k].name, calls[k].metadata);
      assert |calls[k].id| > 0;
    }
  }

  lemma {:induction false} CallOfEntry(entry: Json, parse: string -> Option<Json>)
    requires Find(entry, "function").Some?
    ensures CallOf(entry, parse).id == StringField(entry, "id") && CallOf(entry, parse).metadata == entry
  {
  }

  lemma {:induction false} OneMark(item: Json)
    ensures Marks([item], MarkOf) == [MarkOf(item)]
    ensures Unanswered([], Marks([item], MarkOf)) == Next([], MarkOf(item))
  {
    assert Marks([item], MarkOf)[1..] == [];
  }

  lemma {:induction false} ResponseExactly(message: Message, parse: string -> Option<Json>)
    requires message.role.AssistantRole? && FromResponse(message, parse)
    ensures MessagesOf(message).Ok? && Modest(message, Marks(MessagesOf(message).value, MarkOf), KeyOf)
    ensures Leaves(message, Marks(MessagesOf(message).value, MarkOf), KeyOf) <==> MessageAnswerable(message)
  {
    hide Answerable, MarkOf, Reduced, CallKeys, Marks, Native;
    var body, origin :| ParsedResponse(body, origin, parse).Ok? && ParsedResponse(body, origin, parse).value == message;
    var native := Native(body).value;
    SentBack(body, origin, parse);
    hide ParsedMessage, MessagesOf, Unanswered;
    ReducedAsks(native);
    OneMark(Reduced(native).value);
    if StringField(native, "role") in {"tool", "function", "user"} {
      OtherRole(native, origin, parse);
    } else {
      AskedByNative(native, origin, parse);
    }
  }

  lemma {:induction false} OtherRole(native: Json, origin: Origin, parse: string -> Option<Json>)
    requires ParsedMessage(native, origin, parse).Ok?
    requires StringField(native, "role") in {"tool", "function", "user"}
    ensures Next([], MarkOf(native)).Some? ==> Next([], MarkOf(native)).value == []
    ensures Next([], MarkOf(native)) == Some(CallKeys(ParsedMessage(native, origin, parse).value.calls, KeyOf))
            <==> Answerable(native)
  {
    CallsAreNative(native, origin, parse);
    hide ParsedMessage, LegacyCall, CallOf;
  }

  lemma {:induction false} SentBack(body: Json, origin: Origin, parse: string -> Option<Json>)
    requires ParsedResponse(body, origin, parse).Ok?
    ensures Native(body).Some? && Reduced(Native(body).value).Ok?
    ensures ParsedResponse(body, origin, parse) == ParsedMessage(Native(body).value, origin, parse)
    ensures MessagesOf(ParsedResponse(body, origin, parse).value) == Ok([Reduced(Native(body).value).value])
    ensures HasNative(ParsedResponse(body, origin, parse).value)
    ensures Find(ParsedResponse(body, origin, parse).value.metadata, "message") == Native(body)
  {
    hide ReadContents, ReadCalls, WithLegacy, WithRefusal, Base64.DecodedText;
    var native := Native(body).value;
    assert HasNative(ParsedResponse(body, origin, parse).value);
    assert !Absent(native, "audio") ==> AudioShaped(Find(native, "audio").value);
  }

  lemma {:induction false} OtherMessages(message: Message)
    requires message.role.UserRole? || message.role.ToolRole?
    requires MessagesOf(message).Ok?
    ensures Modest(message, Marks(MessagesOf(message).value, MarkOf), KeyOf)
    ensures message.role.UserRole? ==> Leaves(message, Marks(MessagesOf(message).value, MarkOf), KeyOf)
  {
    if message.role.ToolRole? { AnswerMark(message); }
    OneMark(MessagesOf(message).value[0]);
    hide MessageContent, ToolContent, Marks, Unanswered, ToolAnswer;
    assert MessagesOf(message).value == [MessagesOf(message).value[0]];
  }

  lemma {:induction false} MessageExactly(message: Message, parse: string -> Option<Json>)
    requires Sound(message, parse) && !message.role.SystemRole? && MessagesOf(message).Ok?
    ensures Modest(message, Marks(MessagesOf(message).value, MarkOf), KeyOf)
    ensures !message.role.ToolRole? ==>
              (Leaves(message, Marks(MessagesOf(message).value, MarkOf), KeyOf)
               <==> (message.role.AssistantRole? ==> MessageAnswerable(message)))
  {
    hide FromResponse, MessagesOf, Modest, Leaves, Marks, MessageAnswerable;
    if message.role.AssistantRole? {
      ResponseExactly(message, parse);
    } else {
      OtherMessages(message);
    }
  }

  ghost predicate AllAnswerable(history: seq<Message>)
  {
    forall i | 0 <= i < |history| && history[i].role.AssistantRole? :: MessageAnswerable(history[i])
  }

  /** The messages sent for a complete history are those of its messages one after the other.
      The calls of each are answered by exactly one message each directly behind it, a listed
      call by its id and a legacy call by its name, in order, exactly when every response is
      answerable. */
  lemma {:induction false} TranscriptPaired(history: seq<Message>, parse: string -> Option<Json>)
    requires Complete(history) && Collected(history, MessagesOf).Ok?
    requires forall i | 0 <= i < |history| :: Sound(history[i], parse)
    ensures All(history, MessagesOf).Ok?
    ensures Collected(history, MessagesOf).value == Flattened(All(history, MessagesOf).value)
    ensures Paired(SentMarks(All(history, MessagesOf).value, MarkOf)) <==> AllAnswerable(history)
  {
    hide FromResponse, MessagesOf, Complete, Modest, Leaves, Paired, MessageAnswerable, Marks;
    CompleteHasNoSystem(history);
    assert forall i | 0 <= i < |history| :: MessagesOf(history[i]) == Ok(All(history, MessagesOf).value[i]);
    forall i | 0 <= i < |history|
      ensures Modest(history[i], Marks(MessagesOf(history[i]).value, MarkOf), KeyOf)
      ensures !history[i].role.ToolRole? ==>
                (Leaves(history[i], Marks(MessagesOf(history[i]).value, MarkOf), KeyOf)
                 <==> (history[i].role.AssistantRole? ==> MessageAnswerable(history[i])))
    {
      MessageExactly(history[i], parse);
    }
    CollectedPaired(history, MessagesOf, MarkOf, KeyOf);
    hide Collected;
    assert AllLeaveSent(history, MessagesOf, MarkOf, KeyOf) <==> AllAnswerable(history);
  }

  /** End to end: so it is with every request of every run of a session on which only
      generations have run. */
  lemma {:induction false} RequestPaired(runs: seq<Sessions.SessionRun>, r: nat, request: seq<Message>,
                                         parse: string -> Option<Json>)
    requires forall i | 0 <= i < |runs| :: Sessions.RunOk(runs[i], m => Sound(m, parse))
    requires Sessions.AskedWith(runs, r, request) && Collected(request, MessagesOf).Ok?
    ensures All(request, MessagesOf).Ok?
    ensures Collected(request, MessagesOf).value == Flattened(All(request, MessagesOf).value)
    ensures Paired(SentMarks(All(request, MessagesOf).value, MarkOf)) <==> AllAnswerable(request)
  {
    ghost var good := m => Sound(m, parse);
    hide Sessions.AskedWith, Sessions.RunOk, FromResponse, MessagesOf, Complete, Paired, Collected, AllAnswerable;
    hide SentMarks;
    Sessions.RequestIsGood(runs, r, request, good);
    TranscriptPaired(request, parse);
  }

  /** Every response that is not answerable, answered as the client answers it, makes a
      transcript that is sent and not paired. */
  lemma {:induction false} UnanswerableUnpaired(message: Message, parse: string -> Option<Json>)
    requires message.role.AssistantRole? && FromResponse(message, parse) && !MessageAnswerable(message)
    ensures var history := RoundOf(message);
            && Complete(history) && Collected(history, MessagesOf).Ok? && All(history, MessagesOf).Ok?
            && !Paired(SentMarks(All(history, MessagesOf).value, MarkOf))
  {
    var history := RoundOf(message);
    RoundIsComplete(message);
    hide RoundOf, Complete, MessageAnswerable, FromResponse, Paired;
    forall i | 0 <= i < |history| ensures MessagesOf(history[i]).Ok? && Sound(history[i], parse) {
      if i > 0 { ShortResultSent(history[i]); } else { ResponseExactly(message, parse); }
    }
    hide MessagesOf;
    CollectedExact(history, MessagesOf);
    hide Collected;
    TranscriptPaired(history, parse);
    assert !AllAnswerable(history) by { assert history[0] == message; }
  }

  lemma {:induction false} ShortResultSent(result: Message)
    requires result.role.ToolRole? && result.contents == [Text("x")]
    ensures MessagesOf(result).Ok?
  {
    AllExact(result.contents, TextPart);
  }

  /** Such a response, which is read without complaint: a listed call marked as legacy. */
  lemma {:induction false} MarkedCallUnpaired(origin: Origin, parse: string -> Option<Json>)
    ensures var native := Obj(map["tool_calls" := Arr([MARKED_ENTRY])]);
            var body := Obj(map["choices" := Arr([Obj(map["message" := native])])]);
            && ParsedResponse(body, origin, parse).Ok?
            && var message := ParsedResponse(body, origin, parse).value;
               var history := RoundOf(message);
               && message.calls == [CallOf(MARKED_ENTRY, parse)] && Complete(history)
               && Collected(history, MessagesOf).Ok? && All(history, MessagesOf).Ok?
               && !Paired(SentMarks(All(history, MessagesOf).value, MarkOf))
  {
    var native := Obj(map["tool_calls" := Arr([MARKED_ENTRY])]);
    var body := Obj(map["choices" := Arr([Obj(map["message" := native])])]);
    MarkedEntry(parse);
    hide ReadCall, IsLegacy, CallOf, RoundOf, Collected, All, Paired, Complete;
    assert Entries(native) == Some([MARKED_ENTRY]) && StringField(native, "role") == "";
    MarkedIsRead(native, MARKED_ENTRY, origin, parse);
    MarkedIsAsked(native, MARKED_ENTRY);
    assert Native(body) == Some(native);
    SentBack(body, origin, parse);
    hide ParsedMessage, Answerable;
    var message := ParsedResponse(body, origin, parse).value;
    assert FromResponse(message, parse);
    assert !MessageAnswerable(message);
    hide FromResponse, MessageAnswerable, ParsedResponse;
    ResponseIsAssistant(body, origin, parse);
    UnanswerableUnpaired(message, parse);
  }

  lemma {:induction false} ResponseIsAssistant(body: Json, origin: Origin, parse: string -> Option<Json>)
    requires ParsedResponse(body, origin, parse).Ok?
    ensures ParsedResponse(body, origin, parse).value.role.AssistantRole?
  {
    hide ReadContents, ReadCalls, WithLegacy, WithRefusal, WithAudio;
  }
}
