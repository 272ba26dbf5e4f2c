/** The OpenAI adapter: reading a response's output items, and replaying a transcript. */
module OpenAI {
  import opened Json
  import opened Types
  import opened Transcript
  import opened Wire
  import opened Dialogue
  import Base64
  import Sessions

  const MALFORMED := Thrown("malformed_response")

  // ---- reading a response ----

  datatype Read = Read(contents: seq<Content>, calls: seq<ToolCall>, refused: bool)

  const NOTHING := Read([], [], false)

  function Joined(front: Read, back: Read): (read: Read)
  {
    Read(front.contents + back.contents, front.calls + back.calls, front.refused || back.refused)
  }

  function Kind(item: Json): (kind: string) { StringField(item, "type") }

  /** One part of a message item. */
  function ReadPart(part: Json): (read: Result<Read, Failure>)
    ensures read.Ok? ==> read.value.calls == [] && |read.value.contents| == 1
  {
    if !part.Obj? || !StringOrMissing(part, "type") then Err(MALFORMED)
    else if Kind(part) == "output_text" then
      if HasString(part, "text") then Ok(Read([Text(StringField(part, "text"))], [], false)) else Err(MALFORMED)
    else if Kind(part) == "refusal" then
      if HasString(part, "refusal") then Ok(Read([Text(StringField(part, "refusal"))], [], true)) else Err(MALFORMED)
    else Ok(Read([Extension("openai", part)], [], false))
  }

  function ImageType(bytes: seq<Base64.byte>): (mediaType: string)
  {
    if [0x89, 0x50, 0x4E, 0x47] <= bytes then "image/png"
    else if [0xFF, 0xD8, 0xFF] <= bytes then "image/jpeg"
    else if |bytes| >= 12 && bytes[..4] == [0x52, 0x49, 0x46, 0x46] && bytes[8..12] == [0x57, 0x45, 0x42, 0x50]
    then "image/webp"
    else "application/octet-stream"
  }

  function ImageInput(url: string): (part: Json)
  {
    Obj(map["type" := Str("input_image"), "image_url" := Str(url)])
  }

  function ReadImage(item: Json): (read: Result<Read, Failure>)
    ensures read.Ok? ==> read.value.calls == [] && |read.value.contents| == 1 && !read.value.refused
  {
    if !HasString(item, "result") then Err(MALFORMED)
    else
      var bytes := Base64.DecodedText(StringField(item, "result"));
      if bytes.None? || bytes.value == [] then Err(Thrown("malformed_image"))
      else Ok(Read([Media("image", ImageInput(DataUrl(ImageType(bytes.value), bytes.value)))], [], false))
  }

  function CallOf(item: Json, parse: string -> Option<Json>): (call: ToolCall)
  {
    var raw := StringField(item, "arguments");
    var arguments := ParsedArguments(raw, parse);
    ToolCall(StringField(item, "call_id"), StringField(item, "name"), arguments.value, raw, arguments.valid, item)
  }

  function ReadCall(item: Json, parse: string -> Option<Json>): (read: Result<Read, Failure>)
  {
    if StringField(item, "call_id") == [] || StringField(item, "name") == [] || !HasString(item, "arguments")
       || !StringOrMissing(item, "id")
    then Err(MALFORMED)
    else Ok(Read([], [CallOf(item, parse)], false))
  }

  /** One output item: a message, an image, a call, or something to be replayed only. */
  function ReadItem(item: Json, parse: string -> Option<Json>): (read: Result<Read, Failure>)
  {
    if !item.Obj? || !StringOrMissing(item, "type") then Err(MALFORMED)
    else if Kind(item) == "message" then
      match Find(item, "content")
      case Some(Arr(parts)) => ReadAll(parts, ReadPart)
      case _ => Err(MALFORMED)
    else if Kind(item) == "image_generation_call" then ReadImage(item)
    else if Kind(item) == "function_call" then ReadCall(item, parse)
    else Ok(NOTHING)
  }

  /** All items read one after the other; the first that cannot be read fails all. */
  function ReadAll(items: seq<Json>, readOne: Json -> Result<Read, Failure>): (read: Result<Read, Failure>)
  {
    if items == [] then Ok(NOTHING)
    else
      var n := |items| - 1;
      match ReadAll(items[..n], readOne)
      case Err(e) => Err(e)
      case Ok(front) =>
        match readOne(items[n])
        case Err(e) => Err(e)
        case Ok(back) => Ok(Joined(front, back))
  }

  lemma {:induction false} FirstBadItem(items: seq<Json>, readOne: Json -> Result<Read, Failure>, n: nat, e: Failure)
    requires n <= |items| && ReadAll(items[..n], readOne) == Err(e)
    ensures ReadAll(items, readOne) == Err(e)
    decreases |items| - n
  {
    if n < |items| {
      assert items[..n + 1][..n] == items[..n];
      FirstBadItem(items, readOne, n + 1, e);
    } else {
      assert items[..n] == items;
    }
  }

  function ReadOutput(output: seq<Json>, parse: string -> Option<Json>): (read: Result<Read, Failure>)
  {
    ReadAll(output, item => ReadItem(item, parse))
  }

  datatype Parsed = Parsed(message: Message, refused: bool)

  function Metadata(output: Json): (metadata: Json)
  {
    Obj(map["provider" := Str("openai"), "output" := output])
  }

  /** Shown when nothing else is: the message of an error object. */
  function ErrorText(body: Json): (contents: seq<Content>)
  {
    var error := Find(body, "error");
    if error.Some? && StringField(error.value, "message") != [] then [Text(StringField(error.value, "message"))]
    else []
  }

  function ParsedResponse(body: Json, parse: string -> Option<Json>): (parsed: Result<Parsed, Failure>)
  {
    var output := Find(body, "output");
    if output.None? || !output.value.Arr? then Err(MALFORMED)
    else
      match ReadOutput(output.value.items, parse)
      case Err(e) => Err(e)
      case Ok(read) =>
        var contents := if read.contents == [] then ErrorText(body) else read.contents;
        Ok(Parsed(AssistantMessage(contents, read.calls, Metadata(output.value)), read.refused))
  }

  method ParseMessage(parts: seq<Json>) returns (read: Result<Read, Failure>)
    ensures read == ReadAll(parts, ReadPart)
  {
    var contents: seq<Content> := [];
    var hasRefusal := false;
    hide ReadPart;
    for i := 0 to |parts|
      invariant ReadAll(parts[..i], ReadPart) == Ok(Read(contents, [], hasRefusal))
    {
      assert parts[..i + 1][..i] == parts[..i];
      var part := ReadPart(parts[i]);
      if part.Err? {
        FirstBadItem(parts, ReadPart, i + 1, part.error);
        return Err(part.error);
      }
      assert [] + part.value.calls == [];
      hasRefusal := hasRefusal || part.value.refused;
      contents := contents + part.value.contents;
    }
    assert parts[..|parts|] == parts;
    read := Ok(Read(contents, [], hasRefusal));
  }

  method ParseItem(item: Json, parse: string -> Option<Json>) returns (read: Result<Read, Failure>)
    ensures read == ReadItem(item, parse)
  {
    hide ReadAll, ReadImage, ReadCall;
    if !item.Obj? || !StringOrMissing(item, "type") { return Err(MALFORMED); }
    if Kind(item) == "message" {
      var content := Find(item, "content");
      if content.None? || !content.value.Arr? { return Err(MALFORMED); }
      read := ParseMessage(content.value.items);
      return;
    }
    if Kind(item) == "image_generation_call" { return ReadImage(item); }
    if Kind(item) != "function_call" { return Ok(NOTHING); }
    read := ReadCall(item, parse);
  }

  method ParseResponse(body: Json, parse: string -> Option<Json>) returns (parsed: Result<Parsed, Failure>)
    ensures parsed == ParsedResponse(body, parse)
  {
    var bodyOutput := Find(body, "output");
    if bodyOutput.None? || !bodyOutput.value.Arr? { return Err(MALFORMED); }
    var output := bodyOutput.value.items;
    var read := ParseOutput(output, parse);
    hide ReadOutput, ErrorText;
    if read.Err? { return Err(read.error); }
    var contents := read.value.contents;
    if contents == [] { contents := ErrorText(body); }
    parsed := Ok(Parsed(AssistantMessage(contents, read.value.calls, Metadata(bodyOutput.value)), read.value.refused));
  }

  method ParseOutput(output: seq<Json>, parse: string -> Option<Json>) returns (read: Result<Read, Failure>)
    ensures read == ReadOutput(output, parse)
  {
    var contents: seq<Content> := [];
    var calls: seq<ToolCall> := [];
    var hasRefusal := false;
    var readOne := item => ReadItem(item, parse);
    hide ReadItem;
    for i := 0 to |output|
      invariant ReadAll(output[..i], readOne) == Ok(Read(contents, calls, hasRefusal))
    {
      assert output[..i + 1][..i] == output[..i];
      var item := ParseItem(output[i], parse);
      if item.Err? {
        FirstBadItem(output, readOne, i + 1, item.error);
        return Err(item.error);
      }
      contents, calls := contents + item.value.contents, calls + item.value.calls;
      hasRefusal := hasRefusal || item.value.refused;
    }
    assert output[..|output|] == output;
    read := Ok(Read(contents, calls, hasRefusal));
  }

  // ---- replaying a transcript ----

  predicate HasNative(message: Message)
  {
    StringField(message.metadata, "provider") == "openai"
    && Find(message.metadata, "output").Some? && Find(message.metadata, "output").value.Arr?
  }

  /** The wire form of a content part. A media part carries its wire form, null when the
      format has none for it. */
  function PartOf(content: Content): (part: Result<Json, Failure>)
  {
    match content
    case Text(value) => Ok(Obj(map["type" := Str("input_text"), "text" := Str(value)]))
    case Extension(provider, data) =>
      if provider == "openai" then Ok(data) else Err(Thrown("unsupported_content"))
    case Media(_, wire) => if wire == Null then Err(Thrown("unsupported_content")) else Ok(wire)
  }

  function PartsOf(contents: seq<Content>): (parts: Result<seq<Json>, Failure>)
  {
    All(contents, PartOf)
  }

  function ToolOutput(contents: seq<Content>): (output: Result<Json, Failure>)
  {
    if contents == [] then Ok(Str(""))
    else if |contents| == 1 && contents[0].Text? then Ok(Str(contents[0].value))
    else
      match PartsOf(contents)
      case Err(e) => Err(e)
      case Ok(parts) => Ok(Arr(parts))
  }

  function CallItem(call: ToolCall): (item: Json)
  {
    var bare := map["type" := Str("function_call"), "call_id" := Str(call.id), "name" := Str(call.name),
                    "arguments" := Str(call.rawArguments)];
    Obj(if HasString(call.metadata, "id") then bare["id" := Find(call.metadata, "id").value] else bare)
  }

  function CallItems(calls: seq<ToolCall>): (items: seq<Json>)
    ensures |items| == |calls|
  {
    seq(|calls|, i requires 0 <= i < |calls| => CallItem(calls[i]))
  }

  function Said(role: string, parts: seq<Json>): (item: Json)
  {
    Obj(map["role" := Str(role), "content" := Arr(parts)])
  }

  /** The items one message puts on the wire. */
  function ItemsOf(message: Message): (items: Result<seq<Json>, Failure>)
  {
    if message.role.AssistantRole? && HasNative(message) then Ok(Find(message.metadata, "output").value.items)
    else if message.role.ToolRole? then
      match ToolOutput(message.contents)
      case Err(e) => Err(e)
      case Ok(output) =>
        Ok([Obj(map["type" := Str("function_call_output"), "call_id" := Str(message.callId), "output" := output])])
    else
      match PartsOf(message.contents)
      case Err(e) => Err(e)
      case Ok(parts) =>
        Ok(match message.role
           case AssistantRole =>
             (if message.contents == [] then [] else [Said("assistant", parts)]) + CallItems(message.calls)
           case SystemRole => [Said("developer", parts)]
           case _ => [Said("user", parts)])
  }

  method AppendHistory(input: ItemList, message: Message) returns (error: Option<Failure>)
    modifies input
    ensures match ItemsOf(message)
            case Err(e) => error == Some(e)
            case Ok(items) => error == None && input.items == old(input.items) + items
  {
    error := None;
    hide All, PartOf, ToolOutput, CallItem, Said;
    if message.role.AssistantRole? && HasNative(message) {
      var native := Find(message.metadata, "output").value.items;
      for i := 0 to |native|
        invariant input.items == old(input.items) + native[..i]
      {
        input.Push(native[i]);
      }
      assert native[..|native|] == native;
      return;
    }
    if message.role.ToolRole? {
      var output := ToolOutput(message.contents);
      if output.Err? { return Some(output.error); }
      input.Push(Obj(map["type" := Str("function_call_output"), "call_id" := Str(message.callId),
                         "output" := output.value]));
      return;
    }
    var parts := ConvertAll(message.contents, PartOf);
    if parts.Err? { return Some(parts.error); }
    if message.role.AssistantRole? {
      ghost var said := if message.contents == [] then [] else [Said("assistant", parts.value)];
      if message.contents != [] { input.Push(Said("assistant", parts.value)); }
      assert input.items == old(input.items) + said + CallItems(message.calls)[..0];
      for i := 0 to |message.calls|
        invariant input.items == old(input.items) + said + CallItems(message.calls)[..i]
      {
        input.Push(CallItem(message.calls[i]));
      }
      assert input.items == old(input.items) + (said + CallItems(message.calls));
      return;
    }
    input.Push(Said(if message.role.SystemRole? then "developer" else "user", parts.value));
  }

  /** The input array of a request. */
  method RenderHistory(history: seq<Message>) returns (items: Result<seq<Json>, Failure>)
    ensures items == Collected(history, ItemsOf)
  {
    var input := new ItemList();
    hide ItemsOf;
    for i := 0 to |history|
      invariant Collected(history[..i], ItemsOf) == Ok(input.items)
    {
      assert history[..i + 1][..i] == history[..i];
      var error := AppendHistory(input, history[i]);
      if error.Some? {
        FirstBadMessage(history, ItemsOf, i + 1, error.value);
        return Err(error.value);
      }
    }
    assert history[..|history|] == history;
    items := Ok(input.items);
  }

  // ---- parsing and replaying fit together ----

  /** The call items of an output, in order. */
  function FunctionCalls(output: seq<Json>): (items: seq<Json>)
  {
    if output == [] then []
    else
      var n := |output| - 1;
      FunctionCalls(output[..n]) + if Kind(output[n]) == "function_call" then [output[n]] else []
  }

  /** What an output shows, in order: the parts of its messages, and its images. */
  function Visible(output: seq<Json>): (parts: seq<Json>)
  {
    if output == [] then []
    else
      var n := |output| - 1;
      Visible(output[..n]) + VisibleIn(output[n])
  }

  function VisibleIn(item: Json): (parts: seq<Json>)
  {
    if Kind(item) == "message" && Find(item, "content").Some? && Find(item, "content").value.Arr?
    then Find(item, "content").value.items
    else if Kind(item) == "image_generation_call" then [item]
    else []
  }

  predicate EndsWith(text: string, end: string)
  {
    |end| <= |text| && text[|text| - |end|..] == end
  }

  predicate IsRefusal(part: Json) { Kind(part) == "refusal" }

  /** What a content says about the part it came from. */
  predicate Shows(part: Json, content: Content)
  {
    match content
    case Text(text) =>
      || (Kind(part) == "output_text" && Find(part, "text") == Some(Str(text)))
      || (Kind(part) == "refusal" && Find(part, "refusal") == Some(Str(text)))
    case Extension(provider, data) =>
      provider == "openai" && data == part && Kind(part) != "output_text" && Kind(part) != "refusal"
    case Media(kind, wire) =>
      && kind == "image" && Kind(part) == "image_generation_call"
      && var data := Base64.Compact(StringField(part, "result"));
         && data != [] && EndsWith(StringField(wire, "image_url"), data)
  }

  lemma {:induction false} CallItemRead(item: Json, parse: string -> Option<Json>)
    requires ReadItem(item, parse).Ok?
    ensures ReadItem(item, parse).value.calls == if Kind(item) == "function_call" then [CallOf(item, parse)] else []
    ensures Kind(item) == "function_call" ==> StringField(item, "call_id") != [] && StringField(item, "name") != []
  {
    hide CallOf, ReadPart, ReadAll;
    if Kind(item) == "message" { MessageHasNoCalls(Find(item, "content").value.items); }
  }

  lemma {:induction false} MessageHasNoCalls(parts: seq<Json>)
    requires ReadAll(parts, ReadPart).Ok?
    ensures ReadAll(parts, ReadPart).value.calls == []
  {
    if parts != [] { MessageHasNoCalls(parts[..|parts| - 1]); }
  }

  /** The normalized calls are the native call items, in order, with their ids, names and
      argument texts, each keeping its whole item. */
  lemma {:induction false} CallsAreFunctionCalls(output: seq<Json>, parse: string -> Option<Json>)
    requires ReadOutput(output, parse).Ok?
    ensures var calls := ReadOutput(output, parse).value.calls;
            && |calls| == |FunctionCalls(output)|
            && forall k | 0 <= k < |calls| ::
                 && calls[k] == CallOf(FunctionCalls(output)[k], parse)
                 && calls[k].id != [] && calls[k].name != []
  {
    hide ReadItem;
    if output != [] {
      var n := |output| - 1;
      CallsAreFunctionCalls(output[..n], parse);
      CallItemRead(output[n], parse);
    }
  }

  lemma {:induction false} PartsShown(parts: seq<Json>)
    requires ReadAll(parts, ReadPart).Ok?
    ensures var read := ReadAll(parts, ReadPart).value;
            && |read.contents| == |parts|
            && (forall k | 0 <= k < |parts| :: Shows(parts[k], read.contents[k]))
            && (read.refused <==> exists k | 0 <= k < |parts| :: IsRefusal(parts[k]))
  {
    if parts != [] {
      var n := |parts| - 1;
      PartsShown(parts[..n]);
      PartShown(parts[n]);
      hide ReadPart, Shows, IsRefusal;
      assert parts == parts[..n] + [parts[n]];
      ShownJoined(parts[..n], [parts[n]], ReadAll(parts[..n], ReadPart).value, ReadPart(parts[n]).value);
    }
  }

  lemma {:induction false} PartShown(part: Json)
    requires ReadPart(part).Ok?
    ensures Shows(part, ReadPart(part).value.contents[0])
    ensures ReadPart(part).value.refused <==> IsRefusal(part)
  {
  }

  lemma {:induction false} ImageShown(item: Json)
    requires ReadImage(item).Ok? && Kind(item) == "image_generation_call"
    ensures Shows(item, ReadImage(item).value.contents[0])
  {
    hide Base64.Compact, Base64.Decoded, Base64.Encoded, ImageType;
    var result := StringField(item, "result");
    var bytes := Base64.DecodedText(result).value;
    Base64.DecodedExact(Base64.Compact(result), bytes);
    var url := DataUrl(ImageType(bytes), bytes);
    var data := Base64.Encoded(bytes);
    assert url[|url| - |data|..] == data;
  }

  /** The contents are the visible parts, in order, each showing what it came from; the
      response counts as refused exactly when one of its message parts is a refusal. */
  lemma {:induction false} ContentsShowParts(output: seq<Json>, parse: string -> Option<Json>)
    requires ReadOutput(output, parse).Ok?
    ensures var read := ReadOutput(output, parse).value;
            && |read.contents| == |Visible(output)|
            && (forall k | 0 <= k < |read.contents| :: Shows(Visible(output)[k], read.contents[k]))
            && (read.refused <==> exists k | 0 <= k < |Visible(output)| :: IsRefusal(Visible(output)[k]))
  {
    if output != [] {
      var n := |output| - 1;
      ContentsShowParts(output[..n], parse);
      ItemShown(output[n], parse);
      hide ReadItem, Shows, IsRefusal, VisibleIn;
      var front, parts := Visible(output[..n]), VisibleIn(output[n]);
      var read, back := ReadOutput(output[..n], parse).value, ReadItem(output[n], parse).value;
      assert ReadOutput(output, parse).value == Joined(read, back);
      ShownJoined(front, parts, read, back);
    }
  }

  lemma {:induction false} ShownJoined(front: seq<Json>, parts: seq<Json>, read: Read, back: Read)
    requires |read.contents| == |front| && |back.contents| == |parts|
    requires forall k | 0 <= k < |front| :: Shows(front[k], read.contents[k])
    requires forall k | 0 <= k < |parts| :: Shows(parts[k], back.contents[k])
    requires read.refused <==> exists k | 0 <= k < |front| :: IsRefusal(front[k])
    requires back.refused <==> exists k | 0 <= k < |parts| :: IsRefusal(parts[k])
    ensures var all, joined := front + parts, Joined(read, back);
            && (forall k | 0 <= k < |all| :: Shows(all[k], joined.contents[k]))
            && (joined.refused <==> exists k | 0 <= k < |all| :: IsRefusal(all[k]))
  {
    hide Shows, IsRefusal;
    var all := front + parts;
    if read.refused {
      var k :| 0 <= k < |front| && IsRefusal(front[k]);
      assert IsRefusal(all[k]);
    }
    if back.refused {
      var k :| 0 <= k < |parts| && IsRefusal(parts[k]);
      assert IsRefusal(all[|front| + k]);
    }
  }

  lemma {:induction false} ItemShown(item: Json, parse: string -> Option<Json>)
    requires ReadItem(item, parse).Ok?
    ensures var read, parts := ReadItem(item, parse).value, VisibleIn(item);
            && |read.contents| == |parts|
            && (forall k | 0 <= k < |parts| :: Shows(parts[k], read.contents[k]))
            && (read.refused <==> exists k | 0 <= k < |parts| :: IsRefusal(parts[k]))
  {
    hide Shows, ReadPart, ReadImage, ReadCall, ReadAll;
    if Kind(item) == "message" {
      PartsShown(Find(item, "content").value.items);
    } else if Kind(item) == "image_generation_call" {
      assert VisibleIn(item) == [item];
      ImageShown(item);
    } else if Kind(item) == "function_call" {
      CallShowsNothing(item, parse);
    }
  }

  lemma {:induction false} CallShowsNothing(item: Json, parse: string -> Option<Json>)
    requires ReadCall(item, parse).Ok?
    ensures ReadCall(item, parse).value.contents == [] && !ReadCall(item, parse).value.refused
  {
  }

  /** A parsed response enters the next request as exactly its native output items. */
  lemma {:induction false} ReplayIsFaithful(body: Json, parse: string -> Option<Json>)
    requires ParsedResponse(body, parse).Ok?
    ensures Find(body, "output").Some? && Find(body, "output").value.Arr?
    ensures var output := Find(body, "output").value.items;
            var message := ParsedResponse(body, parse).value.message;
            && ItemsOf(message) == Ok(output)
            && |message.calls| == |FunctionCalls(output)|
            && forall k | 0 <= k < |message.calls| :: message.calls[k] == CallOf(FunctionCalls(output)[k], parse)
  {
    hide ReadOutput, CallOf;
    CallsAreFunctionCalls(Find(body, "output").value.items, parse);
  }

  // ---- calls and their outputs stay paired ----

  /** What an input item amounts to: calls and outputs are matched by call id alone. */
  function MarkOf(item: Json): (mark: Mark)
  {
    if Kind(item) == "function_call" then Ask([Key("", StringField(item, "call_id"))])
    else if Kind(item) == "function_call_output" then Reply(Key("", StringField(item, "call_id")))
    else if Kind(item) in {"", "message"} && StringField(item, "role") == "user" then UserTurn
    else Other
  }

  function KeyOf(id: string, name: string, metadata: Json): (key: Key) { Key("", id) }

  ghost predicate FromResponse(message: Message, parse: string -> Option<Json>)
  {
    exists body :: ParsedResponse(body, parse).Ok? && ParsedResponse(body, parse).value.message == message
  }

  ghost predicate Sound(message: Message, parse: string -> Option<Json>)
  {
    message.role.AssistantRole? ==> FromResponse(message, parse)
  }

  /** What a message puts on the wire holds no answer of its own, and no user's item behind a
      call. */
  predicate MessageOrderly(message: Message)
  {
    ItemsOf(message).Ok? ==> Orderly(false, Marks(ItemsOf(message).value, MarkOf))
  }

  lemma {:induction false} AskedInOutput(output: seq<Json>)
    ensures |AskedKeys(Marks(output, MarkOf))| == |FunctionCalls(output)|
    ensures forall k | 0 <= k < |FunctionCalls(output)| ::
              AskedKeys(Marks(output, MarkOf))[k] == Key("", StringField(FunctionCalls(output)[k], "call_id"))
  {
    if output != [] {
      var n := |output| - 1;
      AskedInOutput(output[..n]);
      assert output == output[..n] + [output[n]];
      MarksAppend(output[..n], [output[n]], MarkOf);
      AskedKeysAppend(Marks(output[..n], MarkOf), Marks([output[n]], MarkOf));
      hide FunctionCalls;
      assert Marks([output[n]], MarkOf)[1..] == [];
      FunctionCallsSnoc(output[..n], output[n]);
    } else {
      assert Marks(output, MarkOf) == [];
    }
  }

  lemma {:induction false} FunctionCallsSnoc(front: seq<Json>, item: Json)
    ensures FunctionCalls(front + [item])
            == FunctionCalls(front) + if Kind(item) == "function_call" then [item] else []
  {
    assert (front + [item])[..|front|] == front;
  }

  /** The calls of a response are what its items ask for. */
  lemma {:induction false} AskedByResponse(message: Message, parse: string -> Option<Json>)
    requires message.role.AssistantRole? && FromResponse(message, parse)
    ensures ItemsOf(message).Ok?
    ensures AskedKeys(Marks(ItemsOf(message).value, MarkOf)) == Expected(message, KeyOf)
  {
    hide ParsedResponse;
    var body :| ParsedResponse(body, parse).Ok? && ParsedResponse(body, parse).value.message == message;
    ReplayIsFaithful(body, parse);
    var output := Find(body, "output").value.items;
    AskedInOutput(output);
    hide ItemsOf;
    assert AskedKeys(Marks(output, MarkOf)) == CallKeys(message.calls, KeyOf);
  }

  lemma {:induction false} OtherMessages(message: Message)
    requires message.role.UserRole? || message.role.ToolRole?
    requires ItemsOf(message).Ok?
    ensures Marks(ItemsOf(message).value, MarkOf)
            == [if message.role.ToolRole? then Reply(Key("", message.callId)) else UserTurn]
  {
    hide PartsOf, ToolOutput;
    var item := ItemsOf(message).value[0];
    assert ItemsOf(message).value == [item];
    assert Marks([item], MarkOf) == [MarkOf(item)];
  }

  /** Each message is modest, and meets the tight condition exactly when it is orderly: a
      user message always does. */
  lemma {:induction false} MessageExactly(message: Message, parse: string -> Option<Json>)
    requires Sound(message, parse) && !message.role.SystemRole? && ItemsOf(message).Ok?
    ensures Modest(message, Marks(ItemsOf(message).value, MarkOf), KeyOf)
    ensures message.role.AssistantRole? ==>
              (Leaves(message, Marks(ItemsOf(message).value, MarkOf), KeyOf) <==> MessageOrderly(message))
    ensures message.role.UserRole? ==> Leaves(message, Marks(ItemsOf(message).value, MarkOf), KeyOf)
  {
    hide FromResponse, ItemsOf, Marks, Leaves;
    var marks := Marks(ItemsOf(message).value, MarkOf);
    UnansweredBound([], marks);
    if message.role.AssistantRole? {
      AskedByResponse(message, parse);
      LeavesExactly(message, marks, KeyOf);
    } else {
      OtherMessages(message);
      assert message.role.UserRole? ==> marks == [UserTurn] && AskedKeys(marks) == [] by { AskedByOne(UserTurn); }
      if message.role.UserRole? { LeavesExactly(message, marks, KeyOf); }
    }
  }

  ghost predicate AllOrderly(history: seq<Message>)
  {
    forall i | 0 <= i < |history| && history[i].role.AssistantRole? :: MessageOrderly(history[i])
  }

  /** The input sent for a complete history is the items of its messages one after the other.
      Each call item is answered by exactly one output item with its call id, in the order of
      the calls and by the messages directly behind, exactly when no response holds an answer
      of its own or a user's item behind a call. */
  lemma {:induction false} TranscriptPaired(history: seq<Message>, parse: string -> Option<Json>)
    requires Complete(history) && Collected(history, ItemsOf).Ok?
    requires forall i | 0 <= i < |history| :: Sound(history[i], parse)
    ensures All(history, ItemsOf).Ok? && Collected(history, ItemsOf).value == Flattened(All(history, ItemsOf).value)
    ensures Paired(SentMarks(All(history, ItemsOf).value, MarkOf)) <==> AllOrderly(history)
  {
    hide FromResponse, ItemsOf, Complete, Modest, Leaves, Paired, MessageOrderly, Marks;
    CompleteHasNoSystem(history);
    assert forall i | 0 <= i < |history| :: ItemsOf(history[i]) == Ok(All(history, ItemsOf).value[i]);
    forall i | 0 <= i < |history|
      ensures Modest(history[i], Marks(ItemsOf(history[i]).value, MarkOf), KeyOf)
      ensures !history[i].role.ToolRole? ==>
                (Leaves(history[i], Marks(ItemsOf(history[i]).value, MarkOf), KeyOf)
                 <==> (history[i].role.AssistantRole? ==> MessageOrderly(history[i])))
    {
      MessageExactly(history[i], parse);
    }
    CollectedPaired(history, ItemsOf, MarkOf, KeyOf);
    hide Collected;
    assert AllLeaveSent(history, ItemsOf, MarkOf, KeyOf) <==> AllOrderly(history);
  }

  /** End to end: so it is with every request of every run of a session on which only
      generations have run. */
  lemma {:induction false} RequestPaired(runs: seq<Sessions.SessionRun>, r: nat, request: seq<Message>,
                                         parse: string -> Option<Json>)
    requires forall i | 0 <= i < |runs| :: Sessions.RunOk(runs[i], m => Sound(m, parse))
    requires Sessions.AskedWith(runs, r, request) && Collected(request, ItemsOf).Ok?
    ensures All(request, ItemsOf).Ok? && Collected(request, ItemsOf).value == Flattened(All(request, ItemsOf).value)
    ensures Paired(SentMarks(All(request, ItemsOf).value, MarkOf)) <==> AllOrderly(request)
  {
    ghost var good := m => Sound(m, parse);
    hide Sessions.AskedWith, Sessions.RunOk, FromResponse, ItemsOf, Complete, Paired, Collected, AllOrderly, SentMarks;
    Sessions.RequestIsGood(runs, r, request, good);
    TranscriptPaired(request, parse);
  }

  /** A response that holds an answer of its own is not orderly, wherever the answer is. */
  lemma {:induction false} AnsweringResponse(body: Json, parse: string -> Option<Json>, i: nat)
    requires ParsedResponse(body, parse).Ok? && Find(body, "output").Some? && Find(body, "output").value.Arr?
    requires i < |Find(body, "output").value.items|
    requires Kind(Find(body, "output").value.items[i]) == "function_call_output"
    ensures !MessageOrderly(ParsedResponse(body, parse).value.message)
  {
    ReplayIsFaithful(body, parse);
    hide ParsedResponse, ItemsOf;
    var output := Find(body, "output").value.items;
    assert Marks(output, MarkOf)[i].Reply?;
    AnswerIsNotOrderly(false, Marks(output, MarkOf), i);
  }

  /** And every response that is not orderly, answered as the client answers it, makes a
      transcript that is sent and not paired. */
  lemma {:induction false} UnorderlyUnpaired(message: Message, parse: string -> Option<Json>)
    requires message.role.AssistantRole? && FromResponse(message, parse) && !MessageOrderly(message)
    ensures var history := RoundOf(message);
            && Complete(history) && Collected(history, ItemsOf).Ok? && All(history, ItemsOf).Ok?
            && !Paired(SentMarks(All(history, ItemsOf).value, MarkOf))
  {
    var history := RoundOf(message);
    RoundIsComplete(message);
    hide RoundOf, Complete, MessageOrderly, FromResponse, Paired;
    forall i | 0 <= i < |history| ensures ItemsOf(history[i]).Ok? && Sound(history[i], parse) {
      if i > 0 { ShortResultSent(history[i]); }
    }
    hide ItemsOf;
    CollectedExact(history, ItemsOf);
    hide Collected;
    TranscriptPaired(history, parse);
    assert !AllOrderly(history) by { assert history[0] == message; }
  }

  lemma {:induction false} ShortResultSent(result: Message)
    requires result.role.ToolRole? && result.contents == [Text("x")]
    ensures ItemsOf(result).Ok?
  {
  }

  const OWN_CALL := Obj(map["type" := Str("function_call"), "call_id" := Str("c"), "name" := Str("f"),
                            "arguments" := Str("")])

  const OWN_ANSWER := Obj(map["type" := Str("function_call_output"), "call_id" := Str("c")])

  /** Such a response: it answers its own call, so what the client answers is one too many. */
  lemma {:induction false} SelfAnswered(parse: string -> Option<Json>)
    ensures var body := Obj(map["output" := Arr([OWN_CALL, OWN_ANSWER])]);
            && ParsedResponse(body, parse).Ok?
            && var message := ParsedResponse(body, parse).value.message;
               var history := RoundOf(message);
               && |message.calls| == 1 && Complete(history)
               && Collected(history, ItemsOf).Ok? && All(history, ItemsOf).Ok?
               && !Paired(SentMarks(All(history, ItemsOf).value, MarkOf))
  {
    OwnResponse(parse);
    hide ParsedResponse, MessageOrderly, FromResponse, RoundOf, Collected, All, Paired, Complete;
    UnorderlyUnpaired(ParsedResponse(Obj(map["output" := Arr([OWN_CALL, OWN_ANSWER])]), parse).value.message, parse);
  }

  lemma {:induction false} OwnResponse(parse: string -> Option<Json>)
    ensures var body := Obj(map["output" := Arr([OWN_CALL, OWN_ANSWER])]);
            && ParsedResponse(body, parse).Ok?
            && var message := ParsedResponse(body, parse).value.message;
               && |message.calls| == 1 && message.role.AssistantRole?
               && FromResponse(message, parse) && !MessageOrderly(message)
  {
    var output := [OWN_CALL, OWN_ANSWER];
    var body := Obj(map["output" := Arr(output)]);
    OwnItemsRead(parse);
    hide ReadItem, ReadAll;
    TwoRead(OWN_CALL, OWN_ANSWER, item => ReadItem(item, parse));
    assert ReadOutput(output, parse).Ok?;
    AnsweringResponse(body, parse, 1);
    ReplayIsFaithful(body, parse);
    OneCall(OWN_CALL, OWN_ANSWER);
    hide MessageOrderly, FunctionCalls;
  }

  lemma {:induction false} OwnItemsRead(parse: string -> Option<Json>)
    ensures ReadItem(OWN_CALL, parse).Ok? && ReadItem(OWN_ANSWER, parse).Ok?
  {
  }

  lemma {:induction false} TwoRead(first: Json, second: Json, readOne: Json -> Result<Read, Failure>)
    requires readOne(first).Ok? && readOne(second).Ok?
    ensures ReadAll([first, second], readOne).Ok?
  {
    assert [first, second][..1] == [first] && [first][..0] == [];
    assert ReadAll([first], readOne).Ok?;
  }

  lemma {:induction false} OneCall(call: Json, other: Json)
    requires Kind(call) == "function_call" && Kind(other) != "function_call"
    ensures FunctionCalls([call, other]) == [call]
  {
    assert [call, other][..1] == [call] && [call][..0] == [];
    assert FunctionCalls([call]) == [call];
  }
}
