/** The Gemini adapter: reading a response, and replaying a transcript as turns. */
module Gemini {
  import opened Json
  import opened Types
  import opened Transcript
  import opened Turns
  import opened Wire
  import opened Dialogue
  import Base64
  import Client
  import Sessions
  import SyntheticIds

  const FIELD := "parts"

  const MALFORMED := Thrown("malformed_response")

  // ---- reading a response ----

  datatype Part = CallPart(call: ToolCall) | ContentPart(content: Content) | BadPart(failure: Failure)

  function Present(part: Json, field: string): (count: nat)
  {
    if Missing(part, field) then 0 else 1
  }

  /** How many of the mutually exclusive payload fields a part has. */
  function PayloadFields(part: Json): (count: nat)
  {
    Present(part, "text") + Present(part, "inlineData") + Present(part, "fileData") + Present(part, "functionCall")
    + Present(part, "functionResponse") + Present(part, "executableCode") + Present(part, "codeExecutionResult")
  }

  predicate OnePayload(part: Json)
  {
    PayloadFields(part) <= 1
  }

  predicate DataShaped(part: Json, field: string, named: string)
  {
    Missing(part, field)
    || var data := Find(part, field).value;
       data.Obj? && StringOrMissing(data, "mimeType") && StringOrMissing(data, named)
       && StringOrMissing(data, "displayName")
  }

  predicate CallShaped(call: Json)
  {
    && call.Obj? && StringOrMissing(call, "id") && StringField(call, "name") != []
    && (Missing(call, "args") || Find(call, "args").value.Obj?)
  }

  predicate WellShaped(part: Json)
  {
    && part.Obj? && StringOrMissing(part, "text") && StringOrMissing(part, "thoughtSignature")
    && (Missing(part, "thought") || Find(part, "thought").value.Bool?)
    && DataShaped(part, "inlineData", "data") && DataShaped(part, "fileData", "fileUri")
    && (Missing(part, "functionCall") || CallShaped(Find(part, "functionCall").value))
    && OnePayload(part)
  }

  function MediaKind(mediaType: string): (kind: string)
  {
    if "image/" <= mediaType then "image" else if "audio/" <= mediaType then "audio" else "file"
  }

  function InlineData(mediaType: string, bytes: seq<Base64.byte>): (part: Json)
  {
    Obj(map["inlineData" := Obj(map["mimeType" := Str(mediaType), "data" := Str(Base64.Encoded(bytes))])])
  }

  function FileData(mediaType: string, uri: string): (part: Json)
  {
    var data := map["fileUri" := Str(uri)];
    Obj(map["fileData" := Obj(if mediaType != [] then data["mimeType" := Str(mediaType)] else data)])
  }

  function ReadInline(data: Json): (read: Part)
    ensures !read.CallPart?
  {
    var mediaType := StringField(data, "mimeType");
    var bytes := Base64.DecodedText(StringField(data, "data"));
    if mediaType == [] || bytes.None? || bytes.value == [] then BadPart(Thrown("malformed_inline_data"))
    else ContentPart(Media(MediaKind(mediaType), InlineData(mediaType, bytes.value)))
  }

  function ReadFile(data: Json): (read: Part)
    ensures !read.CallPart?
  {
    var mediaType, uri := StringField(data, "mimeType"), StringField(data, "fileUri");
    if uri == [] then BadPart(Thrown("malformed_file_data"))
    else ContentPart(Media(MediaKind(mediaType), FileData(mediaType, uri)))
  }

  /** The id of a call: the provider's, or a made-up one. */
  function CallId(native: Json, origin: Origin, index: nat): (id: string)
    ensures id != []
  {
    if StringField(native, "id") != [] then StringField(native, "id")
    else SyntheticIds.GeminiId(origin.run, origin.messages, index)
  }

  function Arguments(native: Json): (arguments: Json)
  {
    if Missing(native, "args") then EMPTY_OBJECT else Find(native, "args").value
  }

  function CallOf(part: Json, origin: Origin, index: nat, dump: Json -> string): (call: ToolCall)
    requires Find(part, "functionCall").Some?
  {
    var native := Find(part, "functionCall").value;
    ToolCall(CallId(native, origin, index), StringField(native, "name"), Arguments(native),
             dump(Arguments(native)), true, part)
  }

  /** One part; `index` counts the calls before it. */
  function ReadPart(part: Json, origin: Origin, index: nat, dump: Json -> string): (read: Part)
  {
    if !WellShaped(part) then BadPart(MALFORMED)
    else if !Missing(part, "text") && Find(part, "thought") == Some(Bool(true)) then
      ContentPart(Extension("gemini", part))
    else if !Missing(part, "text") then ContentPart(Text(StringField(part, "text")))
    else if !Missing(part, "inlineData") then ReadInline(Find(part, "inlineData").value)
    else if !Missing(part, "fileData") then ReadFile(Find(part, "fileData").value)
    else if !Missing(part, "functionCall") then CallPart(CallOf(part, origin, index, dump))
    else ContentPart(Extension("gemini", part))
  }

  datatype Read = Read(contents: seq<Content>, calls: seq<ToolCall>)

  function ReadParts(parts: seq<Json>, origin: Origin, dump: Json -> string): (read: Result<Read, Failure>)
  {
    if parts == [] then Ok(Read([], []))
    else
      var n := |parts| - 1;
      match ReadParts(parts[..n], origin, dump)
      case Err(e) => Err(e)
      case Ok(front) =>
        match ReadPart(parts[n], origin, |front.calls|, dump)
        case BadPart(e) => Err(e)
        case CallPart(call) => Ok(Read(front.contents, front.calls + [call]))
        case ContentPart(content) => Ok(Read(front.contents + [content], front.calls))
  }

  /** The content object of the first candidate, and whether there is a candidate. A
      blocked prompt has none. */
  function NativeContent(body: Json): (native: Result<Json, Failure>)
    ensures native.Ok? ==> native.value.Obj?
  {
    var candidates := Find(body, "candidates");
    if candidates.None? || candidates.value == Arr([]) then
      if StringField(Feedback(body), "blockReason") != [] then Ok(EMPTY_OBJECT) else Err(MALFORMED)
    else if !candidates.value.Arr? || !candidates.value.items[0].Obj? then Err(MALFORMED)
    else
      var candidate := candidates.value.items[0];
      var content := Find(candidate, "content");
      if content.Some? && !content.value.Obj? then Err(MALFORMED)
      else
        var native := if content.Some? then content.value else EMPTY_OBJECT;
        if Missing(native, "parts") && StringField(candidate, "finishReason") == [] then Err(MALFORMED)
        else Ok(native)
  }

  function Feedback(body: Json): (feedback: Json)
  {
    if Missing(body, "promptFeedback") then Null else Find(body, "promptFeedback").value
  }

  function NativeParts(native: Json): (parts: Result<seq<Json>, Failure>)
  {
    match Find(native, "parts")
    case None => Ok([])
    case Some(Arr(items)) => Ok(items)
    case Some(_) => Err(MALFORMED)
  }

  function Metadata(native: Json): (metadata: Json)
  {
    Obj(map["provider" := Str("gemini"), "content" := native])
  }

  function ParsedResponse(body: Json, origin: Origin, dump: Json -> string): (parsed: Result<Message, Failure>)
  {
    match NativeContent(body)
    case Err(e) => Err(e)
    case Ok(native) =>
      match NativeParts(native)
      case Err(e) => Err(e)
      case Ok(parts) =>
        match ReadParts(parts, origin, dump)
        case Err(e) => Err(e)
        case Ok(read) => Ok(AssistantMessage(read.contents, read.calls, Metadata(native)))
  }

  method ParseParts(parts: seq<Json>, origin: Origin, dump: Json -> string) returns (read: Result<Read, Failure>)
    ensures read == ReadParts(parts, origin, dump)
  {
    var contents: seq<Content> := [];
    var calls: seq<ToolCall> := [];
    var callIndex := 0;
    hide ReadPart;
    for i := 0 to |parts|
      invariant callIndex == |calls|
      invariant ReadParts(parts[..i], origin, dump) == Ok(Read(contents, calls))
    {
      assert parts[..i + 1][..i] == parts[..i];
      match ReadPart(parts[i], origin, callIndex, dump) {
        case BadPart(e) =>
          FirstBadPart(parts, origin, dump, i + 1, e);
          return Err(e);
        case CallPart(call) =>
          calls := calls + [call];
          callIndex := callIndex + 1;
        case ContentPart(content) => contents := contents + [content];
      }
    }
    assert parts[..|parts|] == parts;
    read := Ok(Read(contents, calls));
  }

  lemma {:induction false} FirstBadPart(parts: seq<Json>, origin: Origin, dump: Json -> string, n: nat, e: Failure)
    requires n <= |parts| && ReadParts(parts[..n], origin, dump) == Err(e)
    ensures ReadParts(parts, origin, dump) == Err(e)
    decreases |parts| - n
  {
    hide ReadPart;
    if n < |parts| {
      assert parts[..n + 1][..n] == parts[..n];
      FirstBadPart(parts, origin, dump, n + 1, e);
    } else {
      assert parts[..n] == parts;
    }
  }

  method ParseResponse(body: Json, origin: Origin, dump: Json -> string) returns (parsed: Result<Message, Failure>)
    ensures parsed == ParsedResponse(body, origin, dump)
  {
    hide ReadParts;
    var native := NativeContent(body);
    if native.Err? { return Err(native.error); }
    var parts := NativeParts(native.value);
    if parts.Err? { return Err(parts.error); }
    var read := ParseParts(parts.value, origin, dump);
    if read.Err? { return Err(read.error); }
    parsed := Ok(AssistantMessage(read.value.contents, read.value.calls, Metadata(native.value)));
  }

  // ---- replaying a transcript ----

  /** The role a native content is sent back under. */
  function Role(native: Json): (role: string)
  {
    if StringField(native, "role") == [] then "model" else StringField(native, "role")
  }

  predicate HasNative(message: Message)
  {
    StringField(message.metadata, "provider") == "gemini"
    && Find(message.metadata, "content").Some? && Find(message.metadata, "content").value.Obj?
  }

  predicate FetchableUri(uri: string)
  {
    "https://generativelanguage.googleapis.com/" <= uri || "gs://" <= uri
  }

  /** The wire form of a content part. A media part carries its wire form, null when it has
      neither bytes nor a location. */
  function PartOf(content: Content): (part: Result<Json, Failure>)
  {
    match content
    case Text(value) => Ok(Obj(map["text" := Str(value)]))
    case Extension(provider, data) =>
      if provider == "gemini" then Ok(data) else Err(Thrown("unsupported_content"))
    case Media(_, wire) =>
      if Find(wire, "inlineData").Some? then Ok(wire)
      else if Find(wire, "fileData").None? then Err(Thrown("unsupported_content"))
      else if FetchableUri(StringField(Find(wire, "fileData").value, "fileUri")) then Ok(wire)
      else Err(Thrown("unsupported_media_url"))
  }

  function PartsOf(contents: seq<Content>): (parts: Result<seq<Json>, Failure>)
  {
    All(contents, PartOf)
  }

  /** The parts of a tool result beside its text. */
  function ResponseParts(contents: seq<Content>): (parts: Result<seq<Json>, Failure>)
  {
    if contents == [] then Ok([])
    else
      var n := |contents| - 1;
      match ResponseParts(contents[..n])
      case Err(e) => Err(e)
      case Ok(front) =>
        match contents[n]
        case Text(_) => Ok(front)
        case Media(_, wire) =>
          if Find(wire, "inlineData").Some? then Ok(front + [wire]) else Err(Thrown("unsupported_content"))
        case Extension(provider, data) =>
          if provider == "gemini" then Ok(front + [data]) else Err(Thrown("unsupported_content"))
  }

  function TextOf(contents: seq<Content>): (text: string)
  {
    if contents == [] then []
    else
      var n := |contents| - 1;
      TextOf(contents[..n]) + if contents[n].Text? then contents[n].value else []
  }

  /** The result object of a tool: its text read as JSON by `parse`, wrapped unless it is
      an object already. */
  function ToolResponse(message: Message, parse: string -> Option<Json>): (response: Json)
    ensures response.Obj?
  {
    var text := TextOf(message.contents);
    var members :=
      match parse(text)
      case Some(Obj(members)) => members
      case Some(value) => map["result" := value]
      case None => map["result" := Str(text)];
    Obj(if message.isError then members["is_error" := Bool(true)] else members)
  }

  predicate SuppliedId(metadata: Json)
  {
    Find(metadata, "functionCall").Some? && StringField(Find(metadata, "functionCall").value, "id") != []
  }

  function FunctionResponse(message: Message, response: Json, parts: seq<Json>): (wrapped: Json)
  {
    var bare := map["name" := Str(message.toolName), "response" := response];
    var identified := if SuppliedId(message.metadata) then bare["id" := Str(message.callId)] else bare;
    Obj(map["functionResponse" := Obj(if parts == [] then identified else identified["parts" := Arr(parts)])])
  }

  function FunctionCall(call: ToolCall): (part: Json)
  {
    if Find(call.metadata, "functionCall").Some? then call.metadata
    else
      var bare := map["name" := Str(call.name), "args" := call.arguments];
      Obj(map["functionCall" := Obj(if call.id == [] then bare else bare["id" := Str(call.id)])])
  }

  /** What one message contributes: nothing for a system message, or for a native message
      without parts. */
  function PieceOf(message: Message, parse: string -> Option<Json>): (piece: Result<Option<Piece>, Failure>)
  {
    if message.role.SystemRole? then Ok(None)
    else if message.role.AssistantRole? && HasNative(message) then
      var native := Find(message.metadata, "content").value;
      match Find(native, "parts")
      case Some(Arr(parts)) =>
        Ok(Some(Piece(Role(native), parts)))
      case _ => Ok(None)
    else if message.role.ToolRole? then
      match ResponseParts(message.contents)
      case Err(e) => Err(e)
      case Ok(parts) => Ok(Some(Piece("user", [FunctionResponse(message, ToolResponse(message, parse), parts)])))
    else
      match PartsOf(message.contents)
      case Err(e) => Err(e)
      case Ok(parts) =>
        Ok(Some(if message.role.UserRole? then Piece("user", parts)
                else Piece("model", parts + FunctionCalls(message.calls))))
  }

  function FunctionCalls(calls: seq<ToolCall>): (parts: seq<Json>)
    ensures |parts| == |calls|
  {
    seq(|calls|, i requires 0 <= i < |calls| => FunctionCall(calls[i]))
  }

  /** What a history contributes, message by message. */
  function PiecesOf(history: seq<Message>, parse: string -> Option<Json>): (pieces: Result<seq<Piece>, Failure>)
  {
    if history == [] then Ok([])
    else
      var n := |history| - 1;
      match PiecesOf(history[..n], parse)
      case Err(e) => Err(e)
      case Ok(front) =>
        match PieceOf(history[n], parse)
        case Err(e) => Err(e)
        case Ok(None) => Ok(front)
        case Ok(Some(piece)) => Ok(front + [piece])
  }

  method AppendHistory(list: TurnList, message: Message, parse: string -> Option<Json>)
    returns (error: Option<Failure>)
    requires list.field == FIELD
    modifies list`turns
    ensures match PieceOf(message, parse)
            case Err(e) => error == Some(e) && list.turns == old(list.turns)
            case Ok(None) => error == None && list.turns == old(list.turns)
            case Ok(Some(piece)) => error == None && list.turns == Appended(old(list.turns), FIELD, piece)
  {
    error := None;
    hide All, PartOf, ResponseParts, FunctionResponse, ToolResponse, Appended;
    if message.role.SystemRole? { return; }
    if message.role.AssistantRole? && HasNative(message) {
      var native := Find(message.metadata, "content").value;
      var role := StringField(native, "role");
      var parts := Find(native, "parts");
      if parts.Some? && parts.value.Arr? {
        list.AppendTurn(if role == [] then "model" else role, parts.value.items);
      }
      return;
    }
    if message.role.ToolRole? {
      var parts := ResponseParts(message.contents);
      if parts.Err? { return Some(parts.error); }
      list.AppendTurn("user", [FunctionResponse(message, ToolResponse(message, parse), parts.value)]);
      return;
    }
    var rendered := ConvertAll(message.contents, PartOf);
    if rendered.Err? { return Some(rendered.error); }
    if message.role.AssistantRole? {
      var parts := rendered.value;
      for i := 0 to |message.calls|
        invariant parts == rendered.value + FunctionCalls(message.calls)[..i]
        invariant list.turns == old(list.turns)
      {
        parts := parts + [FunctionCall(message.calls[i])];
      }
      assert parts == rendered.value + FunctionCalls(message.calls);
      list.AppendTurn("model", parts);
      return;
    }
    list.AppendTurn("user", rendered.value);
  }

  /** The contents of a request: the pieces of the history, grouped. */
  method RenderHistory(history: seq<Message>, parse: string -> Option<Json>) returns (turns: Result<seq<Json>, Failure>)
    ensures turns == match PiecesOf(history, parse)
                     case Err(e) => Err(e)
                     case Ok(pieces) => Ok(Turned(FIELD, Grouped(pieces)))
  {
    var list := new TurnList(FIELD);
    ghost var pieces: seq<Piece> := [];
    hide PieceOf, Appended, Grouped, Turned;
    for i := 0 to |history|
      invariant list.field == FIELD
      invariant PiecesOf(history[..i], parse) == Ok(pieces) && list.turns == Built(FIELD, pieces)
    {
      assert history[..i + 1][..i] == history[..i];
      var error := AppendHistory(list, history[i], parse);
      if error.Some? {
        FirstUnsent(history, parse, i + 1, error.value);
        return Err(error.value);
      }
      var piece := PieceOf(history[i], parse).value;
      if piece.Some? {
        assert (pieces + [piece.value])[..|pieces|] == pieces;
        pieces := pieces + [piece.value];
      }
    }
    assert history[..|history|] == history;
    BuiltIsGrouped(FIELD, pieces);
    turns := Ok(list.turns);
  }

  lemma {:induction false} FirstUnsent(history: seq<Message>, parse: string -> Option<Json>, n: nat, e: Failure)
    requires n <= |history| && PiecesOf(history[..n], parse) == Err(e)
    ensures PiecesOf(history, parse) == Err(e)
    decreases |history| - n
  {
    hide PieceOf;
    if n < |history| {
      assert history[..n + 1][..n] == history[..n];
      FirstUnsent(history, parse, n + 1, e);
    } else {
      assert history[..n] == history;
    }
  }

  // ---- parsing and replaying fit together ----

  /** The parts that ask for a call, in order. */
  function CallParts(parts: seq<Json>): (asking: seq<Json>)
    ensures forall part | part in asking :: Find(part, "functionCall").Some?
  {
    if parts == [] then []
    else
      var n := |parts| - 1;
      CallParts(parts[..n]) + if Missing(parts[n], "functionCall") then [] else [parts[n]]
  }

  lemma {:induction false} CallsAlone(part: Json, origin: Origin, index: nat, dump: Json -> string)
    requires !ReadPart(part, origin, index, dump).BadPart?
    ensures ReadPart(part, origin, index, dump).CallPart? <==> !Missing(part, "functionCall")
    ensures !Missing(part, "functionCall") ==>
              ReadPart(part, origin, index, dump) == CallPart(CallOf(part, origin, index, dump))
              && CallOf(part, origin, index, dump).name != []
  {
    hide CallOf, ReadInline, ReadFile, DataShaped;
    assert WellShaped(part);
    if !Missing(part, "functionCall") {
      CallIsOnlyPayload(part);
      CallKeepsName(part, origin, index, dump);
    }
  }

  lemma {:induction false} CallIsOnlyPayload(part: Json)
    requires WellShaped(part) && !Missing(part, "functionCall")
    ensures Missing(part, "text") && Missing(part, "inlineData") && Missing(part, "fileData")
  {
    hide DataShaped, CallShaped;
  }

  /** The normalized calls are the native function calls, in order; each keeps its whole
      part, and every part gives either a call or a content. */
  lemma {:induction false} CallsAreFunctionCalls(parts: seq<Json>, origin: Origin, dump: Json -> string)
    requires ReadParts(parts, origin, dump).Ok?
    ensures var read := ReadParts(parts, origin, dump).value;
            && |read.calls| == |CallParts(parts)|
            && |read.contents| + |read.calls| == |parts|
            && forall k | 0 <= k < |read.calls| ::
                 && read.calls[k] == CallOf(CallParts(parts)[k], origin, k, dump)
                 && read.calls[k].name != []
  {
    hide ReadPart, CallOf;
    if parts != [] {
      var n := |parts| - 1;
      CallsAreFunctionCalls(parts[..n], origin, dump);
      var front := ReadParts(parts[..n], origin, dump).value;
      CallsAlone(parts[n], origin, |front.calls|, dump);
    }
  }

  lemma {:induction false} CallKeepsName(part: Json, origin: Origin, index: nat, dump: Json -> string)
    requires Find(part, "functionCall").Some?
    ensures CallOf(part, origin, index, dump).name == StringField(Find(part, "functionCall").value, "name")
  {
  }

  function OtherParts(parts: seq<Json>): (others: seq<Json>)
  {
    if parts == [] then []
    else
      var n := |parts| - 1;
      OtherParts(parts[..n]) + if Missing(parts[n], "functionCall") then [parts[n]] else []
  }

  /** What a content says about the part it came from. */
  predicate Shows(part: Json, content: Content)
  {
    match content
    case Text(text) => Find(part, "text") == Some(Str(text)) && Find(part, "thought") != Some(Bool(true))
    case Extension(provider, data) =>
      && provider == "gemini" && data == part
      && Missing(part, "inlineData") && Missing(part, "fileData")
      && (Missing(part, "text") || Find(part, "thought") == Some(Bool(true)))
    case Media(kind, wire) =>
      var field := if Missing(part, "inlineData") then "fileData" else "inlineData";
      && Missing(part, "text") && !Missing(part, field) && !Missing(wire, field)
      && var native, kept := Find(part, field).value, Find(wire, field).value;
         && kind == MediaKind(StringField(native, "mimeType"))
         && StringField(kept, "mimeType") == StringField(native, "mimeType")
         && (field == "inlineData" ==>
               StringField(kept, "data") == Base64.Compact(StringField(native, "data")) != [])
         && (field == "fileData" ==> StringField(kept, "fileUri") == StringField(native, "fileUri") != [])
  }

  lemma {:induction false} ContentShows(part: Json, origin: Origin, index: nat, dump: Json -> string)
    requires ReadPart(part, origin, index, dump).ContentPart?
    ensures Shows(part, ReadPart(part, origin, index, dump).content)
  {
    OnePayloadHere(part);
    if !Missing(part, "inlineData") { InlineShown(Find(part, "inlineData").value); }
    hide Base64.Compact, Base64.DecodedText, MediaKind, DataShaped, CallShaped, OnePayload, ReadInline;
  }

  lemma {:induction false} OnePayloadHere(part: Json)
    ensures WellShaped(part) ==>
              && (Missing(part, "text") || Missing(part, "inlineData"))
              && (Missing(part, "text") || Missing(part, "fileData"))
              && (Missing(part, "inlineData") || Missing(part, "fileData"))
  {
    hide DataShaped, CallShaped;
  }

  lemma {:induction false} InlineShown(data: Json)
    requires ReadInline(data).ContentPart?
    ensures var content, text := ReadInline(data).content, StringField(data, "data");
            && content.Media? && content.kind == MediaKind(StringField(data, "mimeType"))
            && Find(content.payload, "inlineData").Some?
            && var kept := Find(content.payload, "inlineData").value;
               && StringField(kept, "mimeType") == StringField(data, "mimeType")
               && StringField(kept, "data") == Base64.Compact(text) != []
  {
    hide Base64.Compact, Base64.Decoded, Base64.Encoded, MediaKind;
    var compact := Base64.Compact(StringField(data, "data"));
    Base64.DecodedExact(compact, Base64.DecodedText(StringField(data, "data")).value);
  }

  /** The contents are the other parts, in order: visible text as text, thoughts and unknown
      parts untouched, media with the bytes or the location they came with. */
  lemma {:induction false} ContentsShowParts(parts: seq<Json>, origin: Origin, dump: Json -> string)
    requires ReadParts(parts, origin, dump).Ok?
    ensures var contents := ReadParts(parts, origin, dump).value.contents;
            && |contents| == |OtherParts(parts)|
            && forall k | 0 <= k < |contents| :: Shows(OtherParts(parts)[k], contents[k])
  {
    hide ReadPart, Shows;
    if parts != [] {
      var n := |parts| - 1;
      ContentsShowParts(parts[..n], origin, dump);
      var front := ReadParts(parts[..n], origin, dump).value;
      CallsAlone(parts[n], origin, |front.calls|, dump);
      if Missing(parts[n], "functionCall") { ContentShows(parts[n], origin, |front.calls|, dump); }
    }
  }

  /** Calls the provider sent without an id get different ids. */
  lemma {:induction false} MadeUpIdsDiffer(parts: seq<Json>, run: SyntheticIds.word, messages: nat,
                                           dump: Json -> string, k: nat, l: nat)
    requires var origin := Origin(SyntheticIds.RunId(run), messages);
             ReadParts(parts, origin, dump).Ok? && k < l < |ReadParts(parts, origin, dump).value.calls|
    requires !SuppliedId(ReadParts(parts, Origin(SyntheticIds.RunId(run), messages), dump).value.calls[k].metadata)
    requires !SuppliedId(ReadParts(parts, Origin(SyntheticIds.RunId(run), messages), dump).value.calls[l].metadata)
    ensures var calls := ReadParts(parts, Origin(SyntheticIds.RunId(run), messages), dump).value.calls;
            calls[k].id != calls[l].id
  {
    var origin := Origin(SyntheticIds.RunId(run), messages);
    CallsAreFunctionCalls(parts, origin, dump);
    hide ReadParts, SyntheticIds.GeminiId, SyntheticIds.RunId;
    var calls := ReadParts(parts, origin, dump).value.calls;
    if calls[k].id == calls[l].id {
      SyntheticIds.GeminiIdInjective(run, messages, k, run, messages, l);
    }
  }

  /** A parsed response enters the next request as exactly its native parts, under the
      native role or as the model's when there is none; without parts it enters not at all. */
  lemma {:induction false} ReplayIsFaithful(body: Json, origin: Origin, dump: Json -> string,
                                            parse: string -> Option<Json>)
    requires ParsedResponse(body, origin, dump).Ok?
    ensures NativeContent(body).Ok? && NativeParts(NativeContent(body).value).Ok?
    ensures var native := NativeContent(body).value;
            PieceOf(ParsedResponse(body, origin, dump).value, parse)
            == Ok(if Missing(native, "parts") then None
                  else Some(Piece(match Find(native, "role")
                                  case Some(Str(role)) => if role != "" then role else "model"
                                  case _ => "model",
                                  NativeParts(native).value)))
    ensures |ParsedResponse(body, origin, dump).value.calls|
            == |CallParts(NativeParts(NativeContent(body).value).value)|
  {
    hide NativeContent, ReadParts;
    CallsAreFunctionCalls(NativeParts(NativeContent(body).value).value, origin, dump);
  }

  /** The result of a call, as the client answers it, goes back under the call's name, with
      an id exactly when the provider sent one, and then with that id. */
  lemma {:induction false} ResponseIdExact(parts: seq<Json>, origin: Origin, dump: Json -> string, k: nat,
                                           answer: Message, parse: string -> Option<Json>)
    requires ReadParts(parts, origin, dump).Ok? && k < |ReadParts(parts, origin, dump).value.calls|
    requires answer.role.ToolRole?
    requires var call := ReadParts(parts, origin, dump).value.calls[k];
             answer.callId == call.id && answer.toolName == call.name && answer.metadata == call.metadata
    requires PieceOf(answer, parse).Ok?
    ensures |CallParts(parts)| > k
    ensures var native := Find(CallParts(parts)[k], "functionCall").value;
            var piece := PieceOf(answer, parse).value;
            && piece.Some? && piece.value.role == "user" && |piece.value.blocks| == 1
            && Find(piece.value.blocks[0], "functionResponse").Some?
            && var sent := Find(piece.value.blocks[0], "functionResponse").value;
               && Find(sent, "name") == Find(native, "name") && Find(sent, "name").Some?
               && Find(sent, "id") == (if StringField(native, "id") == [] then None
                                         else Some(Str(StringField(native, "id"))))
  {
    CallsAreFunctionCalls(parts, origin, dump);
    hide ReadParts, CallParts;
    var call := ReadParts(parts, origin, dump).value.calls[k];
    CallIdentity(CallParts(parts)[k], origin, k, dump);
    hide CallOf;
    AnswerIdentity(answer, parse);
  }

  /** What a call keeps of its native form. */
  lemma {:induction false} CallIdentity(part: Json, origin: Origin, index: nat, dump: Json -> string)
    requires Find(part, "functionCall").Some?
    requires StringField(Find(part, "functionCall").value, "name") != []
    ensures var call, native := CallOf(part, origin, index, dump), Find(part, "functionCall").value;
            && call.metadata == part && Find(native, "name") == Some(Str(call.name))
            && (SuppliedId(part) ==> call.id == StringField(native, "id"))
  {
    hide SyntheticIds.GeminiId, Arguments;
  }

  /** What a tool message sends of its call. */
  lemma {:induction false} AnswerIdentity(answer: Message, parse: string -> Option<Json>)
    requires answer.role.ToolRole? && PieceOf(answer, parse).Ok?
    ensures var piece := PieceOf(answer, parse).value;
            && piece.Some? && piece.value.role == "user" && |piece.value.blocks| == 1
            && Find(piece.value.blocks[0], "functionResponse").Some?
            && var sent := Find(piece.value.blocks[0], "functionResponse").value;
               && Find(sent, "name") == Some(Str(answer.toolName))
               && Find(sent, "id") == (if SuppliedId(answer.metadata) then Some(Str(answer.callId)) else None)
  {
    hide ResponseParts, ToolResponse, PartsOf, FunctionCalls, SuppliedId;
  }

  // ---- calls and their responses stay paired ----

  /** What one message puts on the wire, each part with the role it is sent under. */
  function PartsSent(message: Message, parse: string -> Option<Json>): (sent: Result<seq<(string, Json)>, Failure>)
  {
    match PieceOf(message, parse)
    case Err(e) => Err(e)
    case Ok(None) => Ok([])
    case Ok(Some(piece)) => Ok(Flat([piece]))
  }

  lemma {:induction false} FlatIsCollected(history: seq<Message>, parse: string -> Option<Json>)
    requires PiecesOf(history, parse).Ok?
    ensures Collected(history, m => PartsSent(m, parse)) == Ok(Flat(PiecesOf(history, parse).value))
  {
    hide PieceOf;
    if history != [] {
      var n := |history| - 1;
      FlatIsCollected(history[..n], parse);
      var front, piece := PiecesOf(history[..n], parse).value, PieceOf(history[n], parse).value;
      if piece.Some? {
        FlatAppend(front, [piece.value]);
      } else {
        assert Flat(front) + [] == Flat(front);
      }
    }
  }

  /** What a part amounts to: calls and responses are matched by name, and by id when there
      is one. A call in a turn of the user is none of the model's. */
  function MarkOf(sent: (string, Json)): (mark: Mark)
  {
    var (role, part) := sent;
    match (Find(part, "functionCall"), Find(part, "functionResponse"))
    case (Some(call), _) =>
      if role == "user" then Astray else Ask([Key(StringField(call, "name"), StringField(call, "id"))])
    case (None, Some(response)) => Reply(Key(StringField(response, "name"), StringField(response, "id")))
    case (None, None) => if role == "user" then UserTurn else Other
  }

  function KeyOf(id: string, name: string, metadata: Json): (key: Key)
  {
    Key(name, if SuppliedId(metadata) then id else "")
  }

  ghost predicate FromResponse(message: Message, dump: Json -> string)
  {
    exists body, origin :: ParsedResponse(body, origin, dump).Ok? && ParsedResponse(body, origin, dump).value == message
  }

  ghost predicate Sound(message: Message, dump: Json -> string)
  {
    message.role.AssistantRole? ==> FromResponse(message, dump)
  }

  /** What a message puts on the wire holds no response of its own, no call under the role of
      the user, and no other part under that role behind a call. */
  predicate MessageOrderly(message: Message, parse: string -> Option<Json>)
  {
    PartsSent(message, parse).Ok? ==> Orderly(false, Marks(PartsSent(message, parse).value, MarkOf))
  }

  lemma {:induction false} FlatOne(piece: Piece)
    ensures |Flat([piece])| == |piece.blocks|
    ensures forall i | 0 <= i < |piece.blocks| :: Flat([piece])[i] == (piece.role, piece.blocks[i])
  {
    assert [piece][1..] == [];
  }

  function Under(role: string, parts: seq<Json>): (sent: seq<(string, Json)>)
    ensures |sent| == |parts|
  {
    seq(|parts|, i requires 0 <= i < |parts| => (role, parts[i]))
  }

  lemma {:induction false} UnderNext(role: string, parts: seq<Json>)
    requires parts != []
    ensures var n := |parts| - 1;
            var front, last := Marks(Under(role, parts[..n]), MarkOf), MarkOf((role, parts[n]));
            && Marks(Under(role, parts), MarkOf) == front + [last]
            && AskedKeys(Marks(Under(role, parts), MarkOf)) == AskedKeys(front) + if last.Ask? then last.keys else []
  {
    hide MarkOf;
    var n := |parts| - 1;
    var front, last := Marks(Under(role, parts[..n]), MarkOf), MarkOf((role, parts[n]));
    assert Under(role, parts) == Under(role, parts[..n]) + [(role, parts[n])];
    MarksAppend(Under(role, parts[..n]), [(role, parts[n])], MarkOf);
    assert Marks([(role, parts[n])], MarkOf) == [last];
    AskedKeysAppend(front, [last]);
    AskedByOne(last);
  }

  /** Under a role of the model the parts ask for exactly the calls read from them. */
  lemma {:induction false} AskedInParts(role: string, parts: seq<Json>)
    requires role != "user"
    ensures |AskedKeys(Marks(Under(role, parts), MarkOf))| == |CallParts(parts)|
    ensures forall k | 0 <= k < |CallParts(parts)| ::
              var native := Find(CallParts(parts)[k], "functionCall").value;
              AskedKeys(Marks(Under(role, parts), MarkOf))[k]
              == Key(StringField(native, "name"), StringField(native, "id"))
  {
    if parts != [] {
      AskedInParts(role, parts[..|parts| - 1]);
      UnderNext(role, parts);
      hide Marks, Under, AskedKeys;
    } else {
      assert Marks(Under(role, parts), MarkOf) == [];
    }
  }

  /** Under the role of the user they ask for nothing, and a call among them is astray. */
  lemma {:induction false} AstrayInParts(parts: seq<Json>)
    ensures AskedKeys(Marks(Under("user", parts), MarkOf)) == []
    ensures CallParts(parts) != [] ==>
              exists i | 0 <= i < |parts| :: Marks(Under("user", parts), MarkOf)[i].Astray?
  {
    if parts != [] {
      var n := |parts| - 1;
      AstrayInParts(parts[..n]);
      UnderNext("user", parts);
      hide Under, AskedKeys, Marks;
      var front := Marks(Under("user", parts[..n]), MarkOf);
      if CallParts(parts) != [] {
        if CallParts(parts[..n]) != [] {
          var i :| 0 <= i < n && front[i].Astray?;
          assert Marks(Under("user", parts), MarkOf)[i] == front[i];
        } else {
          assert Marks(Under("user", parts), MarkOf)[n].Astray?;
        }
      }
    } else {
      assert Marks(Under("user", parts), MarkOf) == [];
    }
  }

  lemma {:induction false} KeyOfCall(part: Json, origin: Origin, index: nat, dump: Json -> string)
    requires Find(part, "functionCall").Some?
    ensures var call, native := CallOf(part, origin, index, dump), Find(part, "functionCall").value;
            KeyOf(call.id, call.name, call.metadata) == Key(StringField(native, "name"), StringField(native, "id"))
  {
    hide SyntheticIds.GeminiId;
  }

  lemma {:induction false} ReplaySent(body: Json, origin: Origin, dump: Json -> string, parse: string -> Option<Json>)
    requires ParsedResponse(body, origin, dump).Ok?
    ensures NativeContent(body).Ok? && NativeParts(NativeContent(body).value).Ok?
    ensures var native := NativeContent(body).value;
            PartsSent(ParsedResponse(body, origin, dump).value, parse)
            == Ok(Under(Role(native), NativeParts(native).value))
  {
    ReplayIsFaithful(body, origin, dump, parse);
    hide ParsedResponse, NativeContent, PieceOf, Flat;
    var native := NativeContent(body).value;
    var piece := Piece(Role(native), NativeParts(native).value);
    FlatOne(piece);
    assert Flat([piece]) == Under(piece.role, piece.blocks);
  }

  /** The parts of a response ask for exactly its calls, or one of these is astray. */
  lemma {:induction false} AskedByResponse(message: Message, dump: Json -> string, parse: string -> Option<Json>)
    requires message.role.AssistantRole? && FromResponse(message, dump)
    ensures PartsSent(message, parse).Ok?
    ensures var marks := Marks(PartsSent(message, parse).value, MarkOf);
            && |AskedKeys(marks)| <= |message.calls|
            && (AskedKeys(marks) == Expected(message, KeyOf) || exists i | 0 <= i < |marks| :: marks[i].Astray?)
  {
    hide ParsedResponse, NativeContent, NativeParts, PartsSent, Under, CallOf;
    var body, origin :| ParsedResponse(body, origin, dump).Ok? && ParsedResponse(body, origin, dump).value == message;
    ReplaySent(body, origin, dump, parse);
    ParsedCalls(body, origin, dump);
    var native := NativeContent(body).value;
    var parts := NativeParts(native).value;
    hide CallParts, Marks, AskedKeys, Role, ReadParts;
    if Role(native) == "user" {
      AstrayInParts(parts);
      if message.calls == [] { assert CallKeys(message.calls, KeyOf) == []; }
    } else {
      KeysInParts(Role(native), parts, message.calls, origin, dump);
    }
  }

  lemma {:induction false} KeysInParts(role: string, parts: seq<Json>, calls: seq<ToolCall>, origin: Origin,
                                       dump: Json -> string)
    requires role != "user" && |calls| == |CallParts(parts)|
    requires forall k | 0 <= k < |calls| :: calls[k] == CallOf(CallParts(parts)[k], origin, k, dump)
    ensures AskedKeys(Marks(Under(role, parts), MarkOf)) == CallKeys(calls, KeyOf)
  {
    AskedInParts(role, parts);
    hide CallParts, Marks, AskedKeys, KeyOf, CallOf, Under;
    var keys := AskedKeys(Marks(Under(role, parts), MarkOf));
    forall k | 0 <= k < |calls| ensures keys[k] == CallKeys(calls, KeyOf)[k] {
      KeyOfCall(CallParts(parts)[k], origin, k, dump);
    }
  }

  lemma {:induction false} ParsedCalls(body: Json, origin: Origin, dump: Json -> string)
    requires ParsedResponse(body, origin, dump).Ok?
    ensures NativeContent(body).Ok? && NativeParts(NativeContent(body).value).Ok?
    ensures var calls := ParsedResponse(body, origin, dump).value.calls;
            var asking := CallParts(NativeParts(NativeContent(body).value).value);
            |calls| == |asking| && forall k | 0 <= k < |calls| :: calls[k] == CallOf(asking[k], origin, k, dump)
  {
    hide NativeContent, ReadParts, CallOf, CallParts;
    CallsAreFunctionCalls(NativeParts(NativeContent(body).value).value, origin, dump);
  }

  lemma {:induction false} ToolReplies(message: Message, parse: string -> Option<Json>)
    requires message.role.ToolRole? && PartsSent(message, parse).Ok?
    ensures Marks(PartsSent(message, parse).value, MarkOf)
            == [Reply(KeyOf(message.callId, message.toolName, message.metadata))]
  {
    hide ResponseParts, ToolResponse, Flat;
    var piece := PieceOf(message, parse).value.value;
    FlatOne(piece);
    assert Marks(Flat([piece]), MarkOf) == [MarkOf((piece.role, piece.blocks[0]))];
  }

  lemma {:induction false} UserAsksNothing(message: Message, parse: string -> Option<Json>)
    requires message.role.UserRole? && PartsSent(message, parse).Ok?
    ensures AskedKeys(Marks(PartsSent(message, parse).value, MarkOf)) == []
  {
    hide PartsOf, Flat, Marks, AskedKeys, CallParts;
    var piece := PieceOf(message, parse).value.value;
    FlatOne(piece);
    assert Flat([piece]) == Under("user", piece.blocks);
    AstrayInParts(piece.blocks);
  }

  /** Each message is modest, and one of the model or the user meets the tight condition
      exactly when it is orderly. */
  lemma {:induction false} MessageExactly(message: Message, dump: Json -> string, parse: string -> Option<Json>)
    requires Sound(message, dump) && !message.role.SystemRole? && PartsSent(message, parse).Ok?
    ensures Modest(message, Marks(PartsSent(message, parse).value, MarkOf), KeyOf)
    ensures !message.role.ToolRole? ==>
              (Leaves(message, Marks(PartsSent(message, parse).value, MarkOf), KeyOf)
               <==> MessageOrderly(message, parse))
  {
    hide FromResponse, PartsSent, Marks, Leaves, AskedKeys;
    var marks := Marks(PartsSent(message, parse).value, MarkOf);
    UnansweredBound([], marks);
    match message.role
    case ToolRole => ToolReplies(message, parse);
    case UserRole =>
      UserAsksNothing(message, parse);
      LeavesExactly(message, marks, KeyOf);
    case _ =>
      AskedByResponse(message, dump, parse);
      LeavesExactly(message, marks, KeyOf);
  }

  ghost predicate AllOrderly(history: seq<Message>, parse: string -> Option<Json>)
  {
    forall i | 0 <= i < |history| && !history[i].role.ToolRole? :: MessageOrderly(history[i], parse)
  }

  /** The contents sent for a complete history alternate in role and are, part by part, what
      its messages put on the wire one after the other. Each call part is answered by exactly
      one response part of its name and id, in the order of the calls and by the messages
      directly behind, exactly when every message of the model and the user is orderly. */
  lemma {:induction false} TranscriptPaired(history: seq<Message>, dump: Json -> string, parse: string -> Option<Json>)
    requires Complete(history) && PiecesOf(history, parse).Ok?
    requires forall i | 0 <= i < |history| :: Sound(history[i], dump)
    ensures var sent := All(history, m => PartsSent(m, parse));
            var groups := Grouped(PiecesOf(history, parse).value);
            && sent.Ok? && Alternating(groups) && Flat(groups) == Flattened(sent.value)
            && (Paired(SentMarks(sent.value, MarkOf)) <==> AllOrderly(history, parse))
  {
    ghost var render := m => PartsSent(m, parse);
    FlatIsCollected(history, parse);
    BuiltIsGrouped(FIELD, PiecesOf(history, parse).value);
    hide FromResponse, PartsSent, PiecesOf, Complete, Modest, Leaves, Paired, MessageOrderly, Marks;
    hide Alternating, Grouped, Flat;
    CompleteHasNoSystem(history);
    assert All(history, render).Ok?;
    assert forall i | 0 <= i < |history| :: render(history[i]) == Ok(All(history, render).value[i]);
    forall i | 0 <= i < |history|
      ensures Modest(history[i], Marks(render(history[i]).value, MarkOf), KeyOf)
      ensures !history[i].role.ToolRole? ==>
                (Leaves(history[i], Marks(render(history[i]).value, MarkOf), KeyOf)
                 <==> MessageOrderly(history[i], parse))
    {
      MessageExactly(history[i], dump, parse);
    }
    CollectedPaired(history, render, MarkOf, KeyOf);
    hide Collected;
    assert AllLeaveSent(history, render, MarkOf, KeyOf) <==> AllOrderly(history, parse);
  }

  /** End to end: so it is with every request of every run of a session on which only
      generations have run. */
  lemma {:induction false} RequestPaired(runs: seq<Sessions.SessionRun>, r: nat, request: seq<Message>,
                                         dump: Json -> string, parse: string -> Option<Json>)
    requires forall i | 0 <= i < |runs| :: Sessions.RunOk(runs[i], m => Sound(m, dump))
    requires Sessions.AskedWith(runs, r, request) && PiecesOf(request, parse).Ok?
    ensures var sent := All(request, m => PartsSent(m, parse));
            var groups := Grouped(PiecesOf(request, parse).value);
            && sent.Ok? && Alternating(groups) && Flat(groups) == Flattened(sent.value)
            && (Paired(SentMarks(sent.value, MarkOf)) <==> AllOrderly(request, parse))
  {
    ghost var good := m => Sound(m, dump);
    hide Sessions.AskedWith, Sessions.RunOk, FromResponse, PartsSent, PiecesOf, Complete, Paired, AllOrderly;
    hide Alternating, Grouped, Flat, SentMarks, Flattened, All;
    Sessions.RequestIsGood(runs, r, request, good);
    TranscriptPaired(request, dump, parse);
  }

  /** What is asked of a message on its own: it can be sent, and is no system message. */
  lemma {:induction false} CanBeSent(history: seq<Message>, parse: string -> Option<Json>)
    requires forall i | 0 <= i < |history| :: PieceOf(history[i], parse).Ok?
    ensures PiecesOf(history, parse).Ok?
  {
    hide PieceOf;
    if history != [] {
      var n := |history| - 1;
      assert forall i | 0 <= i < n :: history[..n][i] == history[i];
      CanBeSent(history[..n], parse);
    }
  }

  /** The transcript can be sent, and what is sent is not paired. */
  ghost predicate SentUnpaired(history: seq<Message>, parse: string -> Option<Json>)
  {
    var sent := All(history, m => PartsSent(m, parse));
    Complete(history) && PiecesOf(history, parse).Ok? && sent.Ok? && !Paired(SentMarks(sent.value, MarkOf))
  }

  /** Every response that is not orderly, answered as the client answers it, and every user
      message that is not, makes such a transcript. */
  lemma {:induction false} UnorderlyUnpaired(message: Message, dump: Json -> string, parse: string -> Option<Json>)
    requires message.role.AssistantRole? ==> FromResponse(message, dump)
    requires message.role.AssistantRole? || message.role.UserRole?
    requires PieceOf(message, parse).Ok? && !MessageOrderly(message, parse)
    ensures SentUnpaired(if message.role.UserRole? then [message] else RoundOf(message), parse)
  {
    var history := if message.role.UserRole? then [message] else RoundOf(message);
    if message.role.UserRole? { assert history[1..] == []; } else { RoundIsComplete(message); }
    assert Complete(history);
    hide RoundOf, Complete, MessageOrderly, FromResponse, Paired;
    forall i | 0 <= i < |history| ensures PieceOf(history[i], parse).Ok? && Sound(history[i], dump) {
      if i > 0 { ShortResultSent(history[i], parse); }
    }
    hide PieceOf;
    CanBeSent(history, parse);
    hide PiecesOf, All, SentMarks, PartsSent;
    TranscriptPaired(history, dump, parse);
    assert !AllOrderly(history, parse) by { assert history[0] == message; }
  }

  lemma {:induction false} ShortResultSent(result: Message, parse: string -> Option<Json>)
    requires result.role.ToolRole? && result.contents == [Text("x")]
    ensures PieceOf(result, parse).Ok?
  {
    hide ToolResponse, FunctionResponse;
    assert result.contents[..0] == [];
    assert ResponseParts(result.contents[..0]) == Ok([]);
  }

  /** A user message with a part of its own that the client lets pass, and with which a request
      is not paired: a function response, or a function call. */
  lemma {:induction false} SmuggledPart(answer: bool, parse: string -> Option<Json>)
    ensures var field := if answer then "functionResponse" else "functionCall";
            var part := Obj(map[field := Obj(map["name" := Str("f")])]);
            var input := Message(UserRole, [Extension("gemini", part)], [], "", "", false, Null);
            && Client.AcceptsContent(Client.Capabilities(true, true, true, true, "gemini"), input.contents[0])
            && SentUnpaired([input], parse)
  {
    var field := if answer then "functionResponse" else "functionCall";
    var part := Obj(map[field := Obj(map["name" := Str("f")])]);
    var input := Message(UserRole, [Extension("gemini", part)], [], "", "", false, Null);
    AllExact(input.contents, PartOf);
    assert PartOf(input.contents[0]) == Ok(part);
    var parts := PartsOf(input.contents).value;
    assert parts == [part];
    hide PartsOf, PartOf, All, SentUnpaired;
    FlatOne(Piece("user", parts));
    hide Flat;
    var marks := Marks(PartsSent(input, parse).value, MarkOf);
    assert marks[0] == MarkOf(("user", part)) && |"functionResponse"| != |"functionCall"|;
    assert if answer then marks[0].Reply? else marks[0].Astray?;
    if answer { AnswerIsNotOrderly(false, marks, 0); } else { AstrayFails([], false, marks, 0); }
    UnorderlyUnpaired(input, v => "", parse);
  }

  /** A response under the role of the user is not orderly as soon as it holds a call. */
  lemma {:induction false} CallUnderUser(body: Json, origin: Origin, dump: Json -> string,
                                         parse: string -> Option<Json>)
    requires ParsedResponse(body, origin, dump).Ok? && ParsedResponse(body, origin, dump).value.calls != []
    ensures NativeContent(body).Ok?
    ensures Role(NativeContent(body).value) == "user" ==>
              && !MessageOrderly(ParsedResponse(body, origin, dump).value, parse)
              && SentUnpaired(RoundOf(ParsedResponse(body, origin, dump).value), parse)
  {
    ReplaySent(body, origin, dump, parse);
    ParsedCalls(body, origin, dump);
    var message := ParsedResponse(body, origin, dump).value;
    assert message.role.AssistantRole? && FromResponse(message, dump);
    assert PieceOf(message, parse).Ok?;
    hide ParsedResponse, NativeContent, NativeParts, PartsSent, CallOf, CallParts, SentUnpaired, PieceOf, FromResponse;
    var parts := NativeParts(NativeContent(body).value).value;
    AstrayInParts(parts);
    hide Under;
    var marks := Marks(Under("user", parts), MarkOf);
    if i :| 0 <= i < |marks| && marks[i].Astray? { AstrayFails([], false, marks, i); }
    if Role(NativeContent(body).value) == "user" { UnorderlyUnpaired(message, dump, parse); }
  }

  /** A response like that, which is read without complaint. */
  lemma {:induction false} SomeCallUnderUser(origin: Origin, dump: Json -> string, parse: string -> Option<Json>)
    ensures var call := Obj(map["functionCall" := Obj(map["name" := Str("f")])]);
            var content := Obj(map["role" := Str("user"), "parts" := Arr([call])]);
            var body := Obj(map["candidates" := Arr([Obj(map["content" := content])])]);
            && ParsedResponse(body, origin, dump).Ok?
            && |ParsedResponse(body, origin, dump).value.calls| == 1
            && SentUnpaired(RoundOf(ParsedResponse(body, origin, dump).value), parse)
  {
    var call := Obj(map["functionCall" := Obj(map["name" := Str("f")])]);
    var content := Obj(map["role" := Str("user"), "parts" := Arr([call])]);
    var body := Obj(map["candidates" := Arr([Obj(map["content" := content])])]);
    assert NativeContent(body) == Ok(content) && NativeParts(content) == Ok([call]);
    SmallCallRead(call, origin, dump);
    assert [call][..0] == [] && ReadParts([call][..0], origin, dump) == Ok(Read([], []));
    assert ReadParts([call], origin, dump).Ok?;
    hide NativeContent, NativeParts, ReadPart, SentUnpaired;
    CallUnderUser(body, origin, dump, parse);
  }

  lemma {:induction false} SmallCallRead(call: Json, origin: Origin, dump: Json -> string)
    requires call == Obj(map["functionCall" := Obj(map["name" := Str("f")])])
    ensures ReadPart(call, origin, 0, dump).CallPart?
  {
    hide CallOf;
    assert forall field | !Missing(call, field) :: field == "functionCall";
    assert WellShaped(call);
  }
}
