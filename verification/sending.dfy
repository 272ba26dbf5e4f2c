/** What each adapter puts on the wire for a message, written out: every message that is not
    replayed natively, content by content and call by call. */
module Sending {
  import opened Json
  import opened Types
  import opened Turns
  import opened Wire
  import Anthropic
  import Compatible
  import Gemini
  import OpenAI

  /** A text part in two formats, and the object of a single member. */
  function TextPart(kind: string, text: string): (part: Json)
  {
    Obj(map["type" := Str(kind), "text" := Str(text)])
  }

  /** The texts among some contents, joined. */
  function Words(contents: seq<Content>): (text: string)
  {
    if contents == [] then []
    else (if contents[0].Text? then contents[0].value else []) + Words(contents[1..])
  }

  lemma {:induction false} WordsAppend(front: seq<Content>, back: seq<Content>)
    ensures Words(front + back) == Words(front) + Words(back)
  {
    if front == [] {
      assert front + back == back;
    } else {
      assert (front + back)[1..] == front[1..] + back;
      WordsAppend(front[1..], back);
    }
  }

  /** How one content shows as one part of a format. */
  type Showing = (Content, Json) -> bool

  ghost predicate Shown(contents: seq<Content>, parts: seq<Json>, shows: Showing)
  {
    |parts| == |contents| && forall i | 0 <= i < |contents| :: shows(contents[i], parts[i])
  }

  /** The first content that has no form, and the failure it gives. */
  ghost predicate FailsFirst(contents: seq<Content>, can: Content -> bool, why: Content -> string, failure: Failure)
  {
    exists i | 0 <= i < |contents| :: FailsAt(contents, can, why, failure, i)
  }

  ghost predicate FailsAt(contents: seq<Content>, can: Content -> bool, why: Content -> string, failure: Failure,
                          i: nat)
    requires i < |contents|
  {
    !can(contents[i]) && failure == Thrown(why(contents[i])) && forall j | 0 <= j < i :: can(contents[j])
  }

  /** Parts made one by one show their contents; there are none exactly if one content has no
      form, and then the first such gives the failure. */
  lemma {:induction false} PartsShown(contents: seq<Content>, one: Content -> Result<Json, Failure>, shows: Showing,
                                      can: Content -> bool, why: Content -> string)
    requires forall content :: one(content).Ok? <==> can(content)
    requires forall content :: one(content).Ok? ==> shows(content, one(content).value)
    requires forall content :: one(content).Err? ==> one(content).error == Thrown(why(content))
    ensures All(contents, one).Ok? <==> forall i | 0 <= i < |contents| :: can(contents[i])
    ensures All(contents, one).Ok? ==> Shown(contents, All(contents, one).value, shows)
    ensures All(contents, one).Err? ==> FailsFirst(contents, can, why, All(contents, one).error)
  {
    AllExact(contents, one);
    if All(contents, one).Err? {
      var i := AllFails(contents, one);
      assert FailsAt(contents, can, why, All(contents, one).error, i);
    }
  }

  /** Exactly which messages of the model are replayed natively: those that carry what this very
      provider sent. */
  lemma {:induction false} NativeExactly(message: Message)
    ensures Anthropic.HasNative(message) <==>
              && Find(message.metadata, "provider") == Some(Str("anthropic"))
              && Find(message.metadata, "content").Some? && Find(message.metadata, "content").value.Arr?
    ensures OpenAI.HasNative(message) <==>
              && Find(message.metadata, "provider") == Some(Str("openai"))
              && Find(message.metadata, "output").Some? && Find(message.metadata, "output").value.Arr?
    ensures Compatible.HasNative(message) <==>
              && Find(message.metadata, "provider") == Some(Str("openai_compatible"))
              && Find(message.metadata, "message").Some? && Find(message.metadata, "message").value.Obj?
    ensures Gemini.HasNative(message) <==>
              && Find(message.metadata, "provider") == Some(Str("gemini"))
              && Find(message.metadata, "content").Some? && Find(message.metadata, "content").value.Obj?
  {
    assert |"anthropic"| > 0 && |"openai"| > 0 && |"openai_compatible"| > 0 && |"gemini"| > 0;
  }

  /** System messages of a history go to the system instruction, except for OpenAI, where they
      stay in their place. */
  lemma {:induction false} SystemMessagesMove(message: Message, parse: string -> Option<Json>)
    requires message.role.SystemRole?
    ensures Anthropic.PieceOf(message) == Ok(None) && Gemini.PieceOf(message, parse) == Ok(None)
    ensures Compatible.MessagesOf(message) == Ok([])
  {
  }

  // ---- Anthropic ----

  predicate AnthropicCan(content: Content)
  {
    match content
    case Text(_) => true
    case Extension(provider, _) => provider == "anthropic"
    case Media(kind, source) => source != Null && (kind == "image" || kind == "file")
  }

  predicate AnthropicShows(content: Content, part: Json)
  {
    match content
    case Text(value) => part == TextPart("text", value)
    case Extension(_, data) => part == data
    case Media(kind, source) =>
      part == Obj(map["type" := Str(if kind == "image" then "image" else "document"), "source" := source])
  }

  function AnthropicWhy(content: Content): (code: string)
  {
    if content.Media? && content.kind == "file" then "unsupported_document" else "unsupported_content"
  }

  lemma {:induction false} AnthropicParts(contents: seq<Content>)
    ensures Anthropic.PartsOf(contents).Ok? <==> forall i | 0 <= i < |contents| :: AnthropicCan(contents[i])
    ensures Anthropic.PartsOf(contents).Ok? ==> Shown(contents, Anthropic.PartsOf(contents).value, AnthropicShows)
    ensures Anthropic.PartsOf(contents).Err? ==>
              FailsFirst(contents, AnthropicCan, AnthropicWhy, Anthropic.PartsOf(contents).error)
  {
    PartsShown(contents, Anthropic.PartOf, AnthropicShows, AnthropicCan, AnthropicWhy);
  }

  predicate AnthropicResult(message: Message, block: Json, parts: seq<Json>)
  {
    block == Obj(if message.isError
                 then map["type" := Str("tool_result"), "tool_use_id" := Str(message.callId), "content" := Arr(parts),
                          "is_error" := Bool(true)]
                 else map["type" := Str("tool_result"), "tool_use_id" := Str(message.callId), "content" := Arr(parts)])
  }

  predicate AnthropicCall(call: ToolCall, block: Json)
  {
    block == Obj(map["type" := Str("tool_use"), "id" := Str(call.id), "name" := Str(call.name),
                     "input" := call.arguments])
  }

  /** What a message that is neither a system message nor replayed natively adds: a tool result
      with its contents, the contents of a user, or those of the model and then its calls. */
  ghost predicate AnthropicForm(message: Message, piece: Piece, parts: seq<Json>)
  {
    && Shown(message.contents, parts, AnthropicShows)
    && match message.role
       case ToolRole => piece.role == "user" && |piece.blocks| == 1 && AnthropicResult(message, piece.blocks[0], parts)
       case AssistantRole =>
         && piece.role == "assistant" && |piece.blocks| == |parts| + |message.calls|
         && parts <= piece.blocks
         && forall i | 0 <= i < |message.calls| :: AnthropicCall(message.calls[i], piece.blocks[|parts| + i])
       case _ => piece == Piece("user", parts)
  }

  lemma {:induction false} AnthropicSent(message: Message)
    requires !message.role.SystemRole? && !(message.role.AssistantRole? && Anthropic.HasNative(message))
    ensures Anthropic.PieceOf(message).Ok? <==>
              forall i | 0 <= i < |message.contents| :: AnthropicCan(message.contents[i])
    ensures Anthropic.PieceOf(message).Err? ==>
              FailsFirst(message.contents, AnthropicCan, AnthropicWhy, Anthropic.PieceOf(message).error)
    ensures Anthropic.PieceOf(message).Ok? ==>
              && Anthropic.PieceOf(message).value.Some?
              && exists parts :: AnthropicForm(message, Anthropic.PieceOf(message).value.value, parts)
  {
    AnthropicParts(message.contents);
    hide Anthropic.PartsOf, Shown, Anthropic.HasNative, FailsFirst;
    if Anthropic.PieceOf(message).Ok? {
      var parts := Anthropic.PartsOf(message.contents).value;
      assert AnthropicForm(message, Anthropic.PieceOf(message).value.value, parts);
    }
  }

  // ---- OpenAI ----

  predicate OpenAICan(content: Content)
  {
    match content
    case Text(_) => true
    case Extension(provider, _) => provider == "openai"
    case Media(_, wire) => wire != Null
  }

  predicate OpenAIShows(content: Content, part: Json)
  {
    match content
    case Text(value) => part == TextPart("input_text", value)
    case Extension(_, data) => part == data
    case Media(_, wire) => part == wire
  }

  function OpenAIWhy(content: Content): (code: string)
  {
    "unsupported_content"
  }

  lemma {:induction false} OpenAIParts(contents: seq<Content>)
    ensures OpenAI.PartsOf(contents).Ok? <==> forall i | 0 <= i < |contents| :: OpenAICan(contents[i])
    ensures OpenAI.PartsOf(contents).Ok? ==> Shown(contents, OpenAI.PartsOf(contents).value, OpenAIShows)
    ensures OpenAI.PartsOf(contents).Err? ==>
              FailsFirst(contents, OpenAICan, OpenAIWhy, OpenAI.PartsOf(contents).error)
  {
    PartsShown(contents, OpenAI.PartOf, OpenAIShows, OpenAICan, OpenAIWhy);
  }

  /** The output of a tool result: its text if it is just one, nothing if it is empty, and
      otherwise its contents. */
  ghost predicate OpenAIOutput(contents: seq<Content>, output: Json)
  {
    if contents == [] then output == Str("")
    else if |contents| == 1 && contents[0].Text? then output == Str(contents[0].value)
    else output.Arr? && Shown(contents, output.items, OpenAIShows)
  }

  predicate OpenAICall(call: ToolCall, item: Json)
  {
    var bare := map["type" := Str("function_call"), "call_id" := Str(call.id), "name" := Str(call.name),
                    "arguments" := Str(call.rawArguments)];
    match Find(call.metadata, "id")
    case Some(Str(id)) => item == Obj(bare["id" := Str(id)])
    case _ => item == Obj(bare)
  }

  ghost predicate OpenAISaid(role: string, contents: seq<Content>, item: Json)
  {
    && item.Obj? && item.members.Keys == {"role", "content"} && item.members["role"] == Str(role)
    && item.members["content"].Arr? && Shown(contents, item.members["content"].items, OpenAIShows)
  }

  /** What a message that is not replayed natively adds. */
  ghost predicate OpenAIForm(message: Message, items: seq<Json>)
  {
    match message.role
    case ToolRole =>
      && |items| == 1 && items[0].Obj? && items[0].members.Keys == {"type", "call_id", "output"}
      && items[0].members["type"] == Str("function_call_output") && items[0].members["call_id"] == Str(message.callId)
      && OpenAIOutput(message.contents, items[0].members["output"])
    case AssistantRole =>
      var said := if message.contents == [] then 0 else 1;
      && |items| == said + |message.calls|
      && (said == 1 ==> OpenAISaid("assistant", message.contents, items[0]))
      && forall i | 0 <= i < |message.calls| :: OpenAICall(message.calls[i], items[said + i])
    case SystemRole => |items| == 1 && OpenAISaid("developer", message.contents, items[0])
    case UserRole => |items| == 1 && OpenAISaid("user", message.contents, items[0])
  }

  lemma {:induction false} OpenAISent(message: Message)
    requires !(message.role.AssistantRole? && OpenAI.HasNative(message))
    ensures OpenAI.ItemsOf(message).Ok? <==> forall i | 0 <= i < |message.contents| :: OpenAICan(message.contents[i])
    ensures OpenAI.ItemsOf(message).Err? ==>
              FailsFirst(message.contents, OpenAICan, OpenAIWhy, OpenAI.ItemsOf(message).error)
    ensures OpenAI.ItemsOf(message).Ok? ==> OpenAIForm(message, OpenAI.ItemsOf(message).value)
  {
    OpenAIParts(message.contents);
    hide OpenAIForm, OpenAI.PartsOf, OpenAI.HasNative, OpenAICan, FailsFirst;
    if message.role.ToolRole? {
      OpenAIResultSent(message);
    } else if message.role.AssistantRole? {
      OpenAIModelSent(message);
    } else {
      OpenAIUserSent(message);
    }
  }

  lemma {:induction false} OpenAIModelSent(message: Message)
    requires message.role.AssistantRole? && !OpenAI.HasNative(message)
    ensures OpenAI.ItemsOf(message).Ok? ==> OpenAIForm(message, OpenAI.ItemsOf(message).value)
  {
    OpenAIParts(message.contents);
    OpenAICalls(message.calls);
    hide OpenAI.PartsOf, OpenAI.HasNative, OpenAICan, FailsFirst, Shown, OpenAI.CallItems, OpenAICall;
  }

  lemma {:induction false} OpenAIUserSent(message: Message)
    requires message.role.UserRole? || message.role.SystemRole?
    ensures OpenAI.ItemsOf(message).Ok? ==> OpenAIForm(message, OpenAI.ItemsOf(message).value)
  {
    OpenAIParts(message.contents);
    hide OpenAI.PartsOf, OpenAICan, FailsFirst, Shown;
  }

  lemma {:induction false} OpenAIResultSent(message: Message)
    requires message.role.ToolRole?
    ensures OpenAI.ItemsOf(message).Ok? <==> OpenAI.PartsOf(message.contents).Ok?
    ensures OpenAI.ItemsOf(message).Err? ==> OpenAI.ItemsOf(message).error == OpenAI.PartsOf(message.contents).error
    ensures OpenAI.ItemsOf(message).Ok? ==> OpenAIForm(message, OpenAI.ItemsOf(message).value)
  {
    OpenAIParts(message.contents);
    hide OpenAI.PartsOf, Shown;
    assert |message.contents| == 1 && message.contents[0].Text? ==>
        forall i | 0 <= i < |message.contents| :: OpenAICan(message.contents[i]);
    hide OpenAICan;
  }

  lemma {:induction false} OpenAICalls(calls: seq<ToolCall>)
    ensures forall i | 0 <= i < |calls| :: OpenAICall(calls[i], OpenAI.CallItems(calls)[i])
  {
    forall i | 0 <= i < |calls| ensures OpenAICall(calls[i], OpenAI.CallItems(calls)[i]) {
      assert OpenAI.CallItems(calls)[i] == OpenAI.CallItem(calls[i]);
    }
  }

  // ---- OpenAI-compatible servers ----

  predicate CompatibleCan(content: Content)
  {
    match content
    case Text(_) => true
    case Extension(provider, _) => provider == "openai_compatible"
    case Media(kind, wire) => wire != Null && (kind == "audio" ==> AudioFormat(wire) != [])
  }

  /** The format of audio: the option, which has to be a text that is not empty, and without
      one what the media type stands for. */
  function AudioFormat(wire: Json): (format: string)
  {
    if FormatOption(wire).Some? then if FormatOption(wire).value.Str? then FormatOption(wire).value.text else []
    else if Find(wire, "mediaType") in {Some(Str("audio/mpeg")), Some(Str("audio/mp3"))} then "mp3"
    else if Find(wire, "mediaType") in {Some(Str("audio/wav")), Some(Str("audio/wave")), Some(Str("audio/x-wav"))}
    then "wav"
    else []
  }

  function FormatOption(wire: Json): (format: Option<Json>)
  {
    match Find(wire, "options")
    case Some(options) => Find(options, "format")
    case None => None
  }

  function CompatibleWhy(content: Content): (code: string)
  {
    if !content.Media? || content.payload == Null then "unsupported_content"
    else if FormatOption(content.payload).Some? then "invalid_audio_format"
    else "unsupported_audio_format"
  }

  predicate CompatibleShows(content: Content, part: Json)
  {
    match content
    case Text(value) => part == TextPart("text", value)
    case Extension(_, data) => part == data
    case Media(kind, wire) =>
      if kind != "audio" then part == wire
      else part == Obj(map["type" := Str("input_audio"),
                           "input_audio" := Obj(map["data" := Str(StringField(wire, "data")),
                                                    "format" := Str(AudioFormat(wire))])])
  }

  lemma {:induction false} CompatibleParts(contents: seq<Content>)
    ensures All(contents, Compatible.PartOf).Ok? <==> forall i | 0 <= i < |contents| :: CompatibleCan(contents[i])
    ensures All(contents, Compatible.PartOf).Ok? ==>
              Shown(contents, All(contents, Compatible.PartOf).value, CompatibleShows)
    ensures All(contents, Compatible.PartOf).Err? ==>
              FailsFirst(contents, CompatibleCan, CompatibleWhy, All(contents, Compatible.PartOf).error)
  {
    PartsShown(contents, Compatible.PartOf, CompatibleShows, CompatibleCan, CompatibleWhy);
  }

  lemma {:induction false} CompatibleTexts(contents: seq<Content>)
    ensures Compatible.ToolContent(contents).Ok? <==> forall i | 0 <= i < |contents| :: contents[i].Text?
    ensures Compatible.ToolContent(contents).Err? ==>
              Compatible.ToolContent(contents).error == Thrown("unsupported_content")
    ensures Compatible.ToolContent(contents).Ok? ==> Compatible.ToolContent(contents).value == Words(contents)
  {
    if All(contents, Compatible.TextPart).Err? { var i := AllFails(contents, Compatible.TextPart); }
    AllExact(contents, Compatible.TextPart);
    if Compatible.ToolContent(contents).Ok? {
      TextsJoined(contents, All(contents, Compatible.TextPart).value);
    }
  }

  lemma {:induction false} TextsJoined(contents: seq<Content>, texts: seq<string>)
    requires |texts| == |contents| && forall i | 0 <= i < |texts| :: contents[i].Text? && texts[i] == contents[i].value
    ensures Compatible.Concatenated(texts) == Words(contents)
  {
    if texts != [] { TextsJoined(contents[1..], texts[1..]); }
  }

  /** The content of a user's or the model's message: one text as it is, or the parts. */
  ghost predicate CompatibleContent(contents: seq<Content>, content: Json)
  {
    if |contents| == 1 && contents[0].Text? then content == Str(contents[0].value)
    else content.Arr? && Shown(contents, content.items, CompatibleShows)
  }

  predicate CompatibleCall(call: ToolCall, entry: Json)
  {
    entry == Obj(map["id" := Str(call.id), "type" := Str("function"),
                     "function" := Obj(map["name" := Str(call.name), "arguments" := Str(call.rawArguments)])])
  }

  /** What a message that is neither a system message nor replayed natively adds: one message. */
  ghost predicate CompatibleForm(message: Message, sent: Json)
  {
    && sent.Obj?
    && match message.role
       case ToolRole =>
         sent == Obj(if Find(message.metadata, "legacy_function_call") == Some(Bool(true))
                     then map["role" := Str("function"), "name" := Str(message.toolName),
                              "content" := Str(Words(message.contents))]
                     else map["role" := Str("tool"), "tool_call_id" := Str(message.callId),
                              "content" := Str(Words(message.contents))])
       case AssistantRole =>
         && sent.members.Keys == {"role", "content"} + (if message.calls == [] then {} else {"tool_calls"})
         && sent.members["role"] == Str("assistant") && CompatibleContent(message.contents, sent.members["content"])
         && (message.calls != [] ==>
               && sent.members["tool_calls"].Arr? && |sent.members["tool_calls"].items| == |message.calls|
               && forall i | 0 <= i < |message.calls| ::
                    CompatibleCall(message.calls[i], sent.members["tool_calls"].items[i]))
       case _ =>
         && sent.members.Keys == {"role", "content"} && sent.members["role"] == Str("user")
         && CompatibleContent(message.contents, sent.members["content"])
  }

  lemma {:induction false} OneTextSent(contents: seq<Content>)
    ensures |contents| == 1 && contents[0].Text? ==> forall i | 0 <= i < |contents| :: CompatibleCan(contents[i])
  {
  }

  lemma {:induction false} CompatibleSent(message: Message)
    requires !message.role.SystemRole? && !(message.role.AssistantRole? && Compatible.HasNative(message))
    ensures Compatible.MessagesOf(message).Ok? <==>
              if message.role.ToolRole? then forall i | 0 <= i < |message.contents| :: message.contents[i].Text?
              else forall i | 0 <= i < |message.contents| :: CompatibleCan(message.contents[i])
    ensures Compatible.MessagesOf(message).Err? ==>
              if message.role.ToolRole? then Compatible.MessagesOf(message).error == Thrown("unsupported_content")
              else FailsFirst(message.contents, CompatibleCan, CompatibleWhy, Compatible.MessagesOf(message).error)
    ensures Compatible.MessagesOf(message).Ok? ==>
              && |Compatible.MessagesOf(message).value| == 1
              && CompatibleForm(message, Compatible.MessagesOf(message).value[0])
  {
    if message.role.ToolRole? {
      CompatibleTexts(message.contents);
      hide Compatible.ToolContent, Words;
    } else {
      CompatibleParts(message.contents);
      hide All, Shown, Compatible.HasNative, Compatible.PartOf, CompatibleShows, FailsFirst;
      OneTextSent(message.contents);
    }
  }

  // ---- Gemini ----

  predicate GeminiCan(content: Content)
  {
    match content
    case Text(_) => true
    case Extension(provider, _) => provider == "gemini"
    case Media(_, wire) =>
      Find(wire, "inlineData").Some?
      || (Find(wire, "fileData").Some?
          && var uri := StringField(Find(wire, "fileData").value, "fileUri");
             "https://generativelanguage.googleapis.com/" <= uri || "gs://" <= uri)
  }

  predicate GeminiShows(content: Content, part: Json)
  {
    match content
    case Text(value) => part == Obj(map["text" := Str(value)])
    case Extension(_, data) => part == data
    case Media(_, wire) => part == wire
  }

  function GeminiWhy(content: Content): (code: string)
  {
    if content.Media? && Find(content.payload, "fileData").Some? then "unsupported_media_url" else "unsupported_content"
  }

  lemma {:induction false} GeminiParts(contents: seq<Content>)
    ensures Gemini.PartsOf(contents).Ok? <==> forall i | 0 <= i < |contents| :: GeminiCan(contents[i])
    ensures Gemini.PartsOf(contents).Ok? ==> Shown(contents, Gemini.PartsOf(contents).value, GeminiShows)
    ensures Gemini.PartsOf(contents).Err? ==>
              FailsFirst(contents, GeminiCan, GeminiWhy, Gemini.PartsOf(contents).error)
  {
    PartsShown(contents, Gemini.PartOf, GeminiShows, GeminiCan, GeminiWhy);
  }

  /** What may stand beside the text of a tool result. */
  predicate GeminiBeside(content: Content)
  {
    match content
    case Text(_) => true
    case Extension(provider, _) => provider == "gemini"
    case Media(_, wire) => Find(wire, "inlineData").Some?
  }

  /** The parts beside the text, in order. */
  function Beside(contents: seq<Content>): (parts: seq<Json>)
  {
    if contents == [] then []
    else
      (match contents[0]
       case Text(_) => []
       case Extension(_, data) => [data]
       case Media(_, wire) => [wire])
      + Beside(contents[1..])
  }

  lemma {:induction false} BesideAppend(front: seq<Content>, back: seq<Content>)
    ensures Beside(front + back) == Beside(front) + Beside(back)
  {
    if front == [] {
      assert front + back == back;
    } else {
      assert (front + back)[1..] == front[1..] + back;
      BesideAppend(front[1..], back);
    }
  }

  lemma {:induction false} GeminiBesides(contents: seq<Content>)
    ensures Gemini.ResponseParts(contents).Ok? <==> forall i | 0 <= i < |contents| :: GeminiBeside(contents[i])
    ensures Gemini.ResponseParts(contents).Err? ==>
              Gemini.ResponseParts(contents).error == Thrown("unsupported_content")
    ensures Gemini.ResponseParts(contents).Ok? ==> Gemini.ResponseParts(contents).value == Beside(contents)
  {
    if contents != [] {
      var n := |contents| - 1;
      var front, last := contents[..n], contents[n];
      GeminiBesides(front);
      assert contents == front + [last];
      BesideAppend(front, [last]);
      BesideOne(last);
      assert forall i | 0 <= i < n :: front[i] == contents[i];
      hide Beside;
    }
  }

  lemma {:induction false} BesideOne(content: Content)
    ensures Beside([content])
            == match content case Text(_) => [] case Extension(_, data) => [data] case Media(_, wire) => [wire]
  {
    assert [content][1..] == [];
  }

  lemma {:induction false} GeminiWords(contents: seq<Content>)
    ensures Gemini.TextOf(contents) == Words(contents)
  {
    if contents != [] {
      var n := |contents| - 1;
      GeminiWords(contents[..n]);
      assert contents == contents[..n] + [contents[n]];
      WordsAppend(contents[..n], [contents[n]]);
      assert [contents[n]][1..] == [];
    }
  }

  /** The object a tool result is sent as: its text if that is the text of an object, and
      otherwise the value it is the text of, or the text itself, as the result; with a mark
      exactly if it is an error. */
  predicate GeminiResponse(message: Message, response: Json, parse: string -> Option<Json>)
  {
    var text := Words(message.contents);
    var members := match parse(text)
                   case Some(Obj(members)) => members
                   case Some(value) => map["result" := value]
                   case None => map["result" := Str(text)];
    response == Obj(if message.isError then members["is_error" := Bool(true)] else members)
  }

  predicate GeminiResult(message: Message, part: Json, parse: string -> Option<Json>)
  {
    && part.Obj? && part.members.Keys == {"functionResponse"} && part.members["functionResponse"].Obj?
    && var sent := part.members["functionResponse"].members;
       && "name" in sent && sent["name"] == Str(message.toolName)
       && "response" in sent && GeminiResponse(message, sent["response"], parse)
       && ("id" in sent <==> Find(message.metadata, "functionCall").Some?
                             && StringField(Find(message.metadata, "functionCall").value, "id") != [])
       && ("id" in sent ==> sent["id"] == Str(message.callId))
       && ("parts" in sent <==> Beside(message.contents) != [])
       && ("parts" in sent ==> sent["parts"] == Arr(Beside(message.contents)))
       && sent.Keys <= {"name", "response", "id", "parts"}
  }

  predicate GeminiCall(call: ToolCall, part: Json)
  {
    if Find(call.metadata, "functionCall").Some? then part == call.metadata
    else
      part == Obj(map["functionCall" :=
                        Obj(if call.id == [] then map["name" := Str(call.name), "args" := call.arguments]
                            else map["name" := Str(call.name), "args" := call.arguments, "id" := Str(call.id)])])
  }

  ghost predicate GeminiForm(message: Message, piece: Piece, parse: string -> Option<Json>)
  {
    match message.role
    case ToolRole => piece.role == "user" && |piece.blocks| == 1 && GeminiResult(message, piece.blocks[0], parse)
    case AssistantRole =>
      var n := |message.contents|;
      && piece.role == "model" && |piece.blocks| == n + |message.calls|
      && Shown(message.contents, piece.blocks[..n], GeminiShows)
      && forall i | 0 <= i < |message.calls| :: GeminiCall(message.calls[i], piece.blocks[n + i])
    case _ => piece.role == "user" && Shown(message.contents, piece.blocks, GeminiShows)
  }

  /** What a message that is neither a system message nor replayed natively adds. */
  lemma {:induction false} GeminiSent(message: Message, parse: string -> Option<Json>)
    requires !message.role.SystemRole? && !(message.role.AssistantRole? && Gemini.HasNative(message))
    ensures Gemini.PieceOf(message, parse).Ok? <==>
              if message.role.ToolRole? then forall i | 0 <= i < |message.contents| :: GeminiBeside(message.contents[i])
              else forall i | 0 <= i < |message.contents| :: GeminiCan(message.contents[i])
    ensures Gemini.PieceOf(message, parse).Err? ==>
              if message.role.ToolRole? then Gemini.PieceOf(message, parse).error == Thrown("unsupported_content")
              else FailsFirst(message.contents, GeminiCan, GeminiWhy, Gemini.PieceOf(message, parse).error)
    ensures Gemini.PieceOf(message, parse).Ok? ==>
              && Gemini.PieceOf(message, parse).value.Some?
              && GeminiForm(message, Gemini.PieceOf(message, parse).value.value, parse)
  {
    if message.role.ToolRole? {
      GeminiBesides(message.contents);
      GeminiResultSent(message, parse);
      hide Gemini.ResponseParts, Beside, GeminiResult, Gemini.FunctionResponse, Gemini.ToolResponse, GeminiBeside;
    } else {
      GeminiParts(message.contents);
      GeminiCallsSent(message.calls);
      hide Gemini.PartsOf, Gemini.HasNative, GeminiShows, GeminiCan, GeminiCall, Gemini.FunctionCalls, FailsFirst;
    }
  }

  lemma {:induction false} GeminiCallsSent(calls: seq<ToolCall>)
    ensures forall i | 0 <= i < |calls| :: GeminiCall(calls[i], Gemini.FunctionCalls(calls)[i])
  {
  }

  lemma {:induction false} GeminiResultSent(message: Message, parse: string -> Option<Json>)
    ensures GeminiResult(message, Gemini.FunctionResponse(message, Gemini.ToolResponse(message, parse),
                                                          Beside(message.contents)), parse)
  {
    GeminiWords(message.contents);
    hide Beside, Words, Gemini.TextOf;
    assert GeminiResponse(message, Gemini.ToolResponse(message, parse), parse);
    hide Gemini.ToolResponse, GeminiResponse;
    assert |"name"| == |"args"| == 4 && |"id"| == 2 && |"parts"| == 5 && |"response"| == 8;
  }
}
