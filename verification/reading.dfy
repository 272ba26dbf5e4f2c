/** What each adapter reads, written out: exactly which responses it accepts, and the fields of
    the calls it finds in them. */
module Reading {
  import opened Json
  import opened Types
  import opened Wire
  import Anthropic
  import Base64
  import Compatible
  import Gemini
  import OpenAI
  import SyntheticIds

  predicate IsText(found: Option<Json>) { found.Some? && found.value.Str? }

  predicate IsName(found: Option<Json>) { IsText(found) && found.value.text != [] }

  predicate TextOrNone(found: Option<Json>) { found.None? || found.value.Str? }

  predicate Is(found: Option<Json>, text: string) { found == Some(Str(text)) }

  /** A message that says what the model answered and nothing that a tool message would. */
  predicate IsAnswer(message: Message)
  {
    message.role == AssistantRole && message.callId == [] && message.toolName == [] && !message.isError
  }

  /** The text decodes to at least one byte. */
  predicate HoldsBytes(text: string)
  {
    Base64.DecodedText(text).Some? && Base64.DecodedText(text).value != []
  }

  /** The first item that is not good gives the failure. */
  ghost predicate FirstWrong(items: seq<Json>, good: Json -> bool, why: Json -> string, failure: Failure)
  {
    exists i | 0 <= i < |items| :: WrongAt(items, good, why, failure, i)
  }

  ghost predicate WrongAt(items: seq<Json>, good: Json -> bool, why: Json -> string, failure: Failure, i: nat)
    requires i < |items|
  {
    !good(items[i]) && failure == Thrown(why(items[i])) && forall j | 0 <= j < i :: good(items[j])
  }

  lemma {:induction false} FirstWrongLonger(front: seq<Json>, items: seq<Json>, good: Json -> bool, why: Json -> string,
                                            failure: Failure)
    requires front <= items && FirstWrong(front, good, why, failure)
    ensures FirstWrong(items, good, why, failure)
  {
    var i :| 0 <= i < |front| && WrongAt(front, good, why, failure, i);
    assert forall j | 0 <= j <= i :: front[j] == items[j];
    assert WrongAt(items, good, why, failure, i);
  }

  // ---- Anthropic ----

  predicate AnthropicBlock(block: Json)
  {
    && block.Obj? && TextOrNone(Find(block, "type"))
    && (Is(Find(block, "type"), "text") ==> IsText(Find(block, "text")))
    && (Is(Find(block, "type"), "tool_use") ==>
          && IsName(Find(block, "id")) && IsName(Find(block, "name"))
          && Find(block, "input").Some? && Find(block, "input").value.Obj?)
  }

  lemma {:induction false} AnthropicBlocks(blocks: seq<Json>, dump: Json -> string)
    ensures Anthropic.ReadBlocks(blocks, dump).Ok? <==> forall i | 0 <= i < |blocks| :: AnthropicBlock(blocks[i])
    ensures forall call |
              Anthropic.ReadBlocks(blocks, dump).Ok? && call in Anthropic.ReadBlocks(blocks, dump).value.calls ::
              call.rawArguments == dump(call.arguments) && call.argumentsValid
  {
    if blocks != [] {
      var n := |blocks| - 1;
      AnthropicBlocks(blocks[..n], dump);
      assert forall i | 0 <= i < n :: blocks[..n][i] == blocks[i];
      assert !Anthropic.ReadBlock(blocks[n], dump).BadBlock? <==> AnthropicBlock(blocks[n]);
      assert Anthropic.ReadBlock(blocks[n], dump).CallBlock? ==>
          var call := Anthropic.ReadBlock(blocks[n], dump).call;
          call.rawArguments == dump(call.arguments) && call.argumentsValid;
      hide Anthropic.ReadBlock, AnthropicBlock;
    }
  }

  /** Exactly which responses are read, and what besides contents and calls. */
  lemma {:induction false} AnthropicRead(body: Json, dump: Json -> string)
    ensures var content, parsed := Find(body, "content"), Anthropic.ParsedResponse(body, dump);
            && (parsed.Ok? <==>
                  && content.Some? && content.value.Arr?
                  && forall i | 0 <= i < |content.value.items| :: AnthropicBlock(content.value.items[i]))
            && (parsed.Err? ==> parsed.error == Thrown("malformed_response"))
            && (parsed.Ok? ==>
                  && IsAnswer(parsed.value.message)
                  && parsed.value.message.metadata
                     == Obj(map["provider" := Str("anthropic"), "content" := content.value])
                  && (parsed.value.requiresContinuation <==> Is(Find(body, "stop_reason"), "pause_turn"))
                  && forall call | call in parsed.value.message.calls ::
                       call.rawArguments == dump(call.arguments) && call.argumentsValid)
  {
    var content := Find(body, "content");
    if content.Some? && content.value.Arr? {
      AnthropicBlocks(content.value.items, dump);
      AnthropicFails(content.value.items, dump);
    }
    hide Anthropic.ReadBlocks, AnthropicBlock;
    assert |"pause_turn"| > 0;
  }

  lemma {:induction false} AnthropicFails(blocks: seq<Json>, dump: Json -> string)
    ensures Anthropic.ReadBlocks(blocks, dump).Err? ==>
              Anthropic.ReadBlocks(blocks, dump).error == Thrown("malformed_response")
  {
    if blocks != [] {
      hide Anthropic.ReadBlock;
      AnthropicFails(blocks[..|blocks| - 1], dump);
    }
  }

  // ---- OpenAI ----

  predicate OpenAIPart(part: Json)
  {
    && part.Obj? && TextOrNone(Find(part, "type"))
    && (Is(Find(part, "type"), "output_text") ==> IsText(Find(part, "text")))
    && (Is(Find(part, "type"), "refusal") ==> IsText(Find(part, "refusal")))
  }

  predicate OpenAIItem(item: Json)
  {
    var kind := Find(item, "type");
    && item.Obj? && TextOrNone(kind)
    && (Is(kind, "message") ==>
          && Find(item, "content").Some? && Find(item, "content").value.Arr?
          && var parts := Find(item, "content").value.items; forall i | 0 <= i < |parts| :: OpenAIPart(parts[i]))
    && (Is(kind, "image_generation_call") ==>
          IsText(Find(item, "result")) && HoldsBytes(Find(item, "result").value.text))
    && (Is(kind, "function_call") ==>
          && IsName(Find(item, "call_id")) && IsName(Find(item, "name"))
          && IsText(Find(item, "arguments")) && TextOrNone(Find(item, "id")))
  }

  function OpenAIWhy(item: Json): (code: string)
  {
    if Is(Find(item, "type"), "image_generation_call") && IsText(Find(item, "result")) then "malformed_image"
    else "malformed_response"
  }

  function Malformed(item: Json): (code: string)
  {
    "malformed_response"
  }

  lemma {:induction false} OpenAIAll(items: seq<Json>, readOne: Json -> Result<OpenAI.Read, Failure>,
                                     good: Json -> bool, why: Json -> string)
    requires forall item :: readOne(item).Ok? <==> good(item)
    requires forall item :: readOne(item).Err? ==> readOne(item).error == Thrown(why(item))
    ensures OpenAI.ReadAll(items, readOne).Ok? <==> forall i | 0 <= i < |items| :: good(items[i])
    ensures OpenAI.ReadAll(items, readOne).Err? ==>
              FirstWrong(items, good, why, OpenAI.ReadAll(items, readOne).error)
  {
    if items != [] {
      var n := |items| - 1;
      OpenAIAll(items[..n], readOne, good, why);
      assert forall i | 0 <= i < n :: items[..n][i] == items[i];
      var before, read := OpenAI.ReadAll(items[..n], readOne), OpenAI.ReadAll(items, readOne);
      if before.Err? {
        FirstWrongLonger(items[..n], items, good, why, before.error);
      } else if read.Err? {
        assert WrongAt(items, good, why, read.error, n);
      }
    }
  }

  lemma {:induction false} OpenAIPartRead(part: Json)
    ensures OpenAI.ReadPart(part).Ok? <==> OpenAIPart(part)
    ensures OpenAI.ReadPart(part).Err? ==> OpenAI.ReadPart(part).error == Thrown("malformed_response")
  {
  }

  lemma {:induction false} OpenAIItemRead(item: Json, parse: string -> Option<Json>)
    ensures OpenAI.ReadItem(item, parse).Ok? <==> OpenAIItem(item)
    ensures OpenAI.ReadItem(item, parse).Err? ==> OpenAI.ReadItem(item, parse).error == Thrown(OpenAIWhy(item))
  {
    forall part
      ensures OpenAI.ReadPart(part).Ok? <==> OpenAIPart(part)
      ensures OpenAI.ReadPart(part).Err? ==> OpenAI.ReadPart(part).error == Thrown("malformed_response")
    {
      OpenAIPartRead(part);
    }
    var content := Find(item, "content");
    if content.Some? && content.value.Arr? { OpenAIAll(content.value.items, OpenAI.ReadPart, OpenAIPart, Malformed); }
    OpenAIKinds(item);
    hide OpenAI.ReadAll, OpenAI.ReadPart, OpenAIPart, Base64.DecodedText, OpenAI.CallOf;
    hide OpenAI.ImageType, OpenAI.ImageInput;
  }

  lemma {:induction false} OpenAIKinds(item: Json)
    ensures TextOrNone(Find(item, "type")) ==>
              && (OpenAI.Kind(item) == "message" <==> Is(Find(item, "type"), "message"))
              && (OpenAI.Kind(item) == "image_generation_call" <==> Is(Find(item, "type"), "image_generation_call"))
              && (OpenAI.Kind(item) == "function_call" <==> Is(Find(item, "type"), "function_call"))
  {
    assert |"message"| == 7 && |"image_generation_call"| == 21 && |"function_call"| == 13;
  }

  predicate OpenAICall(item: Json, call: ToolCall, parse: string -> Option<Json>)
  {
    && Is(Find(item, "call_id"), call.id) && Is(Find(item, "name"), call.name)
    && Is(Find(item, "arguments"), call.rawArguments) && ArgumentsOf(call, parse) && call.metadata == item
  }

  /** The arguments are what their text parses to; a text that is no JSON leaves an empty
      object, and a mark. */
  predicate ArgumentsOf(call: ToolCall, parse: string -> Option<Json>)
  {
    match parse(call.rawArguments)
    case None => call.arguments == Obj(map[]) && !call.argumentsValid
    case Some(value) => call.arguments == value && call.argumentsValid
  }

  /** Exactly which responses are read; and where nothing is shown, the text of an error is. */
  lemma {:induction false} OpenAIRead(body: Json, parse: string -> Option<Json>)
    ensures var output, parsed := Find(body, "output"), OpenAI.ParsedResponse(body, parse);
            && (parsed.Ok? <==>
                  && output.Some? && output.value.Arr?
                  && forall i | 0 <= i < |output.value.items| :: OpenAIItem(output.value.items[i]))
            && (parsed.Err? ==>
                  if output.Some? && output.value.Arr? then
                    FirstWrong(output.value.items, OpenAIItem, OpenAIWhy, parsed.error)
                  else parsed.error == Thrown("malformed_response"))
            && (parsed.Ok? ==>
                  && IsAnswer(parsed.value.message)
                  && parsed.value.message.metadata
                     == Obj(map["provider" := Str("openai"), "output" := output.value])
                  && var calls, items := parsed.value.message.calls, OpenAI.FunctionCalls(output.value.items);
                     && |calls| == |items|
                     && forall i | 0 <= i < |calls| :: OpenAICall(items[i], calls[i], parse))
  {
    var output := Find(body, "output");
    if output.Some? && output.value.Arr? {
      forall item
        ensures OpenAI.ReadItem(item, parse).Ok? <==> OpenAIItem(item)
        ensures OpenAI.ReadItem(item, parse).Err? ==> OpenAI.ReadItem(item, parse).error == Thrown(OpenAIWhy(item))
      {
        OpenAIItemRead(item, parse);
      }
      OpenAIAll(output.value.items, item => OpenAI.ReadItem(item, parse), OpenAIItem, OpenAIWhy);
    }
    if OpenAI.ParsedResponse(body, parse).Ok? {
      OpenAICallsRead(output.value.items, parse);
      OpenAI.CallsAreFunctionCalls(output.value.items, parse);
    }
    hide OpenAI.ReadItem, OpenAI.ReadAll, OpenAIItem, OpenAICall, OpenAI.FunctionCalls, OpenAI.ErrorText, FirstWrong;
  }

  lemma {:induction false} OpenAICallsRead(output: seq<Json>, parse: string -> Option<Json>)
    requires OpenAI.ReadOutput(output, parse).Ok?
    ensures forall i | 0 <= i < |OpenAI.FunctionCalls(output)| ::
              OpenAICall(OpenAI.FunctionCalls(output)[i], OpenAI.CallOf(OpenAI.FunctionCalls(output)[i], parse), parse)
  {
    if output != [] {
      var n := |output| - 1;
      OpenAICallsRead(output[..n], parse);
      if OpenAI.Kind(output[n]) == "function_call" { OpenAICallRead(output[n], parse); }
      hide OpenAI.ReadItem, OpenAICall, OpenAI.CallOf;
    }
  }

  lemma {:induction false} OpenAICallRead(item: Json, parse: string -> Option<Json>)
    requires OpenAI.ReadItem(item, parse).Ok? && OpenAI.Kind(item) == "function_call"
    ensures OpenAICall(item, OpenAI.CallOf(item, parse), parse)
  {
    assert |"message"| == 7 && |"image_generation_call"| == 21 && |"function_call"| == 13;
    assert OpenAI.ReadCall(item, parse).Ok?;
    hide OpenAI.ReadAll, OpenAI.ReadImage, OpenAI.ReadPart;
  }

  /** What the first bytes of an image say it is. */
  function ImageKind(bytes: seq<Base64.byte>): (mediaType: string)
  {
    if |bytes| >= 4 && bytes[0] == 0x89 && bytes[1] == 0x50 && bytes[2] == 0x4E && bytes[3] == 0x47 then "image/png"
    else if |bytes| >= 3 && bytes[0] == 0xFF && bytes[1] == 0xD8 && bytes[2] == 0xFF then "image/jpeg"
    else if |bytes| >= 12 && bytes[0] == 0x52 && bytes[1] == 0x49 && bytes[2] == 0x46 && bytes[3] == 0x46
            && bytes[8] == 0x57 && bytes[9] == 0x45 && bytes[10] == 0x42 && bytes[11] == 0x50
    then "image/webp"
    else "application/octet-stream"
  }

  /** An image is shown by a data URL of its very bytes, as the kind they say. */
  lemma {:induction false} OpenAIImageRead(item: Json, parse: string -> Option<Json>)
    requires OpenAI.ReadItem(item, parse).Ok? && OpenAI.Kind(item) == "image_generation_call"
    ensures IsText(Find(item, "result")) && HoldsBytes(Find(item, "result").value.text)
    ensures var data := Find(item, "result").value.text;
            var kind := ImageKind(Base64.DecodedText(data).value);
            OpenAI.ReadItem(item, parse).value.contents
            == [Media("image", Obj(map["type" := Str("input_image"),
                                       "image_url" := Str("data:" + kind + ";base64," + Base64.Compact(data))]))]
  {
    assert |"message"| == 7 && |"image_generation_call"| == 21;
    assert OpenAI.ReadImage(item).Ok?;
    var data := Find(item, "result").value.text;
    var bytes := Base64.DecodedText(data).value;
    Base64.DecodedExact(Base64.Compact(data), bytes);
    SameKind(bytes);
    hide Base64.Compact, Base64.Decoded, Base64.Encoded, OpenAI.ImageType, ImageKind, OpenAI.ReadAll;
  }

  lemma {:induction false} SameKind(bytes: seq<Base64.byte>)
    ensures OpenAI.ImageType(bytes) == ImageKind(bytes) != []
  {
    if |bytes| >= 12 {
      assert bytes[..4] == [bytes[0], bytes[1], bytes[2], bytes[3]];
      assert bytes[8..12] == [bytes[8], bytes[9], bytes[10], bytes[11]];
    }
  }

  /** Where the output shows nothing the message of an error does. */
  lemma {:induction false} OpenAIErrorShown(body: Json, parse: string -> Option<Json>)
    requires OpenAI.ParsedResponse(body, parse).Ok? && OpenAI.Visible(Find(body, "output").value.items) == []
    ensures var error := Find(body, "error");
            OpenAI.ParsedResponse(body, parse).value.message.contents
            == if error.Some? && IsName(Find(error.value, "message"))
               then [Text(Find(error.value, "message").value.text)] else []
  {
    OpenAI.ContentsShowParts(Find(body, "output").value.items, parse);
    hide OpenAI.ReadOutput, OpenAI.Visible, OpenAI.Shows, OpenAI.IsRefusal;
  }

  // ---- OpenAI-compatible servers ----

  predicate NoneOrNull(found: Option<Json>) { found.None? || found.value.Null? }

  predicate CompatiblePart(part: Json)
  {
    && part.Obj? && TextOrNone(Find(part, "type"))
    && (Is(Find(part, "type"), "text") ==> IsText(Find(part, "text")))
    && (Is(Find(part, "type"), "image_url") ==>
          Find(part, "image_url").Some? && IsName(Find(Find(part, "image_url").value, "url")))
  }

  predicate CompatibleEntry(entry: Json)
  {
    && entry.Obj? && IsName(Find(entry, "id")) && Is(Find(entry, "type"), "function")
    && Find(entry, "function").Some? && Find(entry, "function").value.Obj?
    && CompatibleFunction(Find(entry, "function").value)
  }

  predicate CompatibleFunction(form: Json)
  {
    IsName(Find(form, "name")) && IsText(Find(form, "arguments"))
  }

  predicate CompatibleAudio(audio: Json)
  {
    && IsName(Find(audio, "id")) && IsText(Find(audio, "data")) && TextOrNone(Find(audio, "transcript"))
    && (Find(audio, "expires_at").None? || Find(audio, "expires_at").value.Int?)
    && HoldsBytes(Find(audio, "data").value.text)
  }

  predicate CompatibleMessage(native: Json)
  {
    && (var content := Find(native, "content");
        NoneOrNull(content) || content.value.Str?
        || (content.value.Arr? && forall i | 0 <= i < |content.value.items| :: CompatiblePart(content.value.items[i])))
    && (var calls := Find(native, "tool_calls");
        NoneOrNull(calls)
        || (calls.value.Arr? && forall i | 0 <= i < |calls.value.items| :: CompatibleEntry(calls.value.items[i])))
    && (NoneOrNull(Find(native, "function_call")) || CompatibleFunction(Find(native, "function_call").value))
    && (NoneOrNull(Find(native, "audio")) || CompatibleAudio(Find(native, "audio").value))
  }

  /** Exactly which messages are read. */
  lemma {:induction false} CompatibleMessageRead(native: Json, origin: Origin, parse: string -> Option<Json>)
    ensures Compatible.ParsedMessage(native, origin, parse).Ok? <==> CompatibleMessage(native)
  {
    CompatibleContents(native);
    CompatibleCalls(native, parse);
    CompatibleLegacy(native, origin, parse);
    CompatibleAudioRead(native);
    hide Compatible.ReadContents, Compatible.ReadCalls, Compatible.WithLegacy, Compatible.WithAudio, CompatiblePart;
    hide CompatibleEntry, CompatibleFunction, CompatibleAudio;
  }

  lemma {:induction false} CompatibleContents(native: Json)
    ensures Compatible.ReadContents(native).Ok? <==>
              var content := Find(native, "content");
              NoneOrNull(content) || content.value.Str?
              || (content.value.Arr?
                  && forall i | 0 <= i < |content.value.items| :: CompatiblePart(content.value.items[i]))
  {
    forall part ensures Compatible.ReadPart(part).Ok? <==> CompatiblePart(part) { CompatiblePartRead(part); }
    var content := Find(native, "content");
    if content.Some? && content.value.Arr? { AllExact(content.value.items, Compatible.ReadPart); }
    hide Compatible.ReadPart, CompatiblePart, All;
  }

  lemma {:induction false} CompatiblePartRead(part: Json)
    ensures Compatible.ReadPart(part).Ok? <==> CompatiblePart(part)
  {
  }

  /** What a part is read as. */
  lemma {:induction false} CompatiblePartIs(part: Json)
    requires CompatiblePart(part)
    ensures Compatible.ReadPart(part)
            == Ok(if Is(Find(part, "type"), "text") then Text(Find(part, "text").value.text)
                  else if Is(Find(part, "type"), "image_url") then
                    Media("image",
                          Obj(map["type" := Str("image_url"),
                                  "image_url" := Obj(map["url" := Find(Find(part, "image_url").value, "url").value])]))
                  else Extension("openai_compatible", part))
  {
    assert |"text"| == 4 && |"image_url"| == 9;
  }

  lemma {:induction false} CompatibleCalls(native: Json, parse: string -> Option<Json>)
    ensures Compatible.ReadCalls(native, parse).Ok? <==>
              var calls := Find(native, "tool_calls");
              NoneOrNull(calls)
              || (calls.value.Arr? && forall i | 0 <= i < |calls.value.items| :: CompatibleEntry(calls.value.items[i]))
  {
    var readOne := entry => Compatible.ReadCall(entry, parse);
    forall entry ensures readOne(entry).Ok? <==> CompatibleEntry(entry) { CompatibleEntryRead(entry, parse); }
    var calls := Find(native, "tool_calls");
    if calls.Some? && calls.value.Arr? { AllExact(calls.value.items, readOne); } else { AllExact([], readOne); }
    hide Compatible.ReadCall, CompatibleEntry, All;
  }

  lemma {:induction false} CompatibleEntryRead(entry: Json, parse: string -> Option<Json>)
    ensures Compatible.ReadCall(entry, parse).Ok? <==> CompatibleEntry(entry)
  {
    hide Compatible.CallOf;
  }

  lemma {:induction false} CompatibleLegacy(native: Json, origin: Origin, parse: string -> Option<Json>)
    ensures forall calls :: Compatible.WithLegacy(native, calls, origin, parse).Ok? <==>
              NoneOrNull(Find(native, "function_call")) || CompatibleFunction(Find(native, "function_call").value)
  {
    hide Compatible.LegacyCall;
  }

  lemma {:induction false} CompatibleAudioRead(native: Json)
    ensures forall contents :: Compatible.WithAudio(native, contents).Ok? <==>
              NoneOrNull(Find(native, "audio")) || CompatibleAudio(Find(native, "audio").value)
  {
    hide Base64.DecodedText, Base64.Encoded;
  }

  /** Where the entry has all a call needs but is of another type. */
  function CompatibleEntryWhy(entry: Json): (code: string)
  {
    if entry.Obj? && IsName(Find(entry, "id")) && IsText(Find(entry, "type")) && Find(entry, "function").Some?
       && Find(entry, "function").value.Obj? && !Is(Find(entry, "type"), "function")
    then "unsupported_tool_call" else "malformed_response"
  }

  /** How a message fails that is not read, in the order of contents, calls, legacy call, audio. */
  ghost predicate CompatibleFails(native: Json, failure: Failure)
  {
    var content, calls, audio := Find(native, "content"), Find(native, "tool_calls"), Find(native, "audio");
    if !(NoneOrNull(content) || content.value.Str?
         || (content.value.Arr? && forall i | 0 <= i < |content.value.items| :: CompatiblePart(content.value.items[i])))
    then failure == Thrown("malformed_response")
    else if !NoneOrNull(calls) && !calls.value.Arr? then failure == Thrown("malformed_response")
    else if !NoneOrNull(calls) && exists i | 0 <= i < |calls.value.items| :: !CompatibleEntry(calls.value.items[i])
    then FirstWrong(calls.value.items, CompatibleEntry, CompatibleEntryWhy, failure)
    else if !NoneOrNull(Find(native, "function_call")) && !CompatibleFunction(Find(native, "function_call").value)
    then failure == Thrown("malformed_response")
    else failure == Thrown(if CompatibleAudioShape(audio) then "malformed_audio" else "malformed_response")
  }

  predicate CompatibleAudioShape(audio: Option<Json>)
  {
    && audio.Some? && IsName(Find(audio.value, "id")) && IsText(Find(audio.value, "data"))
    && TextOrNone(Find(audio.value, "transcript"))
    && (Find(audio.value, "expires_at").None? || Find(audio.value, "expires_at").value.Int?)
  }

  lemma {:induction false} CompatibleFailure(native: Json, origin: Origin, parse: string -> Option<Json>)
    requires Compatible.ParsedMessage(native, origin, parse).Err?
    ensures CompatibleFails(native, Compatible.ParsedMessage(native, origin, parse).error)
  {
    CompatibleContents(native);
    CompatibleCalls(native, parse);
    CompatibleLegacy(native, origin, parse);
    CompatibleAudioRead(native);
    CompatibleContentsFail(native);
    if Compatible.ReadCalls(native, parse).Err? { CompatibleCallsFail(native, parse); }
    CompatibleLegacyFails(native, origin, parse);
    CompatibleAudioFails(native);
    hide Compatible.ReadContents, Compatible.ReadCalls, Compatible.WithLegacy, Compatible.WithAudio, CompatiblePart;
    hide CompatibleEntry, CompatibleFunction, CompatibleAudio, FirstWrong, CompatibleAudioShape;
  }

  lemma {:induction false} CompatibleContentsFail(native: Json)
    ensures Compatible.ReadContents(native).Err? ==>
              Compatible.ReadContents(native).error == Thrown("malformed_response")
  {
    var content := Find(native, "content");
    if content.Some? && content.value.Arr? && All(content.value.items, Compatible.ReadPart).Err? {
      var i := AllFails(content.value.items, Compatible.ReadPart);
    }
  }

  lemma {:induction false} CompatibleCallsFail(native: Json, parse: string -> Option<Json>)
    requires Compatible.ReadCalls(native, parse).Err?
    ensures var calls, error := Find(native, "tool_calls"), Compatible.ReadCalls(native, parse).error;
            && !NoneOrNull(calls)
            && if calls.value.Arr? then FirstWrong(calls.value.items, CompatibleEntry, CompatibleEntryWhy, error)
               else error == Thrown("malformed_response")
  {
    var readOne := entry => Compatible.ReadCall(entry, parse);
    var calls := Find(native, "tool_calls");
    hide Compatible.ReadCall, CompatibleEntry, CompatibleEntryWhy;
    if !NoneOrNull(calls) && calls.value.Arr? {
      var i := AllFails(calls.value.items, readOne);
      forall j | 0 <= j <= i ensures readOne(calls.value.items[j]).Ok? <==> CompatibleEntry(calls.value.items[j]) {
        CompatibleEntryRead(calls.value.items[j], parse);
      }
      CompatibleEntryFails(calls.value.items[i], parse);
      var error := Compatible.ReadCalls(native, parse).error;
      assert WrongAt(calls.value.items, CompatibleEntry, CompatibleEntryWhy, error, i);
    }
  }

  lemma {:induction false} CompatibleEntryFails(entry: Json, parse: string -> Option<Json>)
    requires Compatible.ReadCall(entry, parse).Err?
    ensures Compatible.ReadCall(entry, parse).error == Thrown(CompatibleEntryWhy(entry))
  {
  }

  lemma {:induction false} CompatibleLegacyFails(native: Json, origin: Origin, parse: string -> Option<Json>)
    ensures forall calls :: Compatible.WithLegacy(native, calls, origin, parse).Err? ==>
              Compatible.WithLegacy(native, calls, origin, parse).error == Thrown("malformed_response")
  {
    hide Compatible.LegacyCall;
  }

  lemma {:induction false} CompatibleAudioFails(native: Json)
    ensures forall contents :: Compatible.WithAudio(native, contents).Err? ==>
              Compatible.WithAudio(native, contents).error
              == Thrown(if CompatibleAudioShape(Find(native, "audio")) then "malformed_audio" else "malformed_response")
  {
    hide Base64.DecodedText, Base64.Encoded;
  }

  /** What stands in where there are no contents: the refusal, and otherwise the transcript of
      the audio, which is itself the last content. */
  lemma {:induction false} CompatibleContentsRead(native: Json, origin: Origin, parse: string -> Option<Json>)
    requires Compatible.ParsedMessage(native, origin, parse).Ok?
    ensures var contents := Compatible.ParsedMessage(native, origin, parse).value.contents;
            var audio := Find(native, "audio");
            var given := match Find(native, "content")
                         case Some(Str(text)) => [Text(text)]
                         case Some(Arr(parts)) => if parts == [] then [] else contents[..Smaller(|parts|, |contents|)]
                         case _ => [];
            var refused := if given == [] && IsText(Find(native, "refusal"))
                           then [Text(Find(native, "refusal").value.text)] else given;
            if NoneOrNull(audio) then contents == refused
            else
              && IsText(Find(audio.value, "data")) && audio.value.Obj?
              && var said := if refused == [] && IsName(Find(audio.value, "transcript"))
                             then [Text(Find(audio.value, "transcript").value.text)] else refused;
                 contents == said
                   + [Media("audio", Obj(map["data" := Str(Base64.Compact(Find(audio.value, "data").value.text)),
                                             "mediaType" := Str("application/octet-stream"),
                                             "options" := Obj(audio.value.members - {"data"})]))]
  {
    CompatibleMessageRead(native, origin, parse);
    var audio := Find(native, "audio");
    if !NoneOrNull(audio) {
      var data := Find(audio.value, "data").value.text;
      Base64.DecodedExact(Base64.Compact(data), Base64.DecodedText(data).value);
    }
    hide Compatible.ReadCalls, Compatible.WithLegacy, CompatiblePart, CompatibleEntry, CompatibleFunction;
    hide Compatible.ReadPart, Base64.Compact, Base64.Decoded, Base64.Encoded;
    var read := Compatible.ReadContents(native).value;
    assert read == (match Find(native, "content")
                    case Some(Str(text)) => [Text(text)]
                    case Some(Arr(parts)) => All(parts, Compatible.ReadPart).value
                    case _ => []);
    hide All;
  }

  function Smaller(a: nat, b: nat): (least: nat)
  {
    if a < b then a else b
  }

  /** The first choice's message, if it is an object. */
  lemma {:induction false} CompatibleRead(body: Json, origin: Origin, parse: string -> Option<Json>)
    ensures var parsed, choices := Compatible.ParsedResponse(body, origin, parse), Find(body, "choices");
            && (parsed.Ok? <==>
                  && choices.Some? && choices.value.Arr? && choices.value.items != []
                  && Find(choices.value.items[0], "message").Some? && Find(choices.value.items[0], "message").value.Obj?
                  && CompatibleMessage(Find(choices.value.items[0], "message").value))
            && (parsed.Ok? ==>
                  && IsAnswer(parsed.value)
                  && parsed.value.metadata
                     == Obj(map["provider" := Str("openai_compatible"),
                                "message" := Find(choices.value.items[0], "message").value]))
  {
    var choices := Find(body, "choices");
    if Compatible.Native(body).Some? { CompatibleMessageRead(Compatible.Native(body).value, origin, parse); }
    hide CompatibleMessage, Compatible.ReadContents, Compatible.ReadCalls, Compatible.WithLegacy, Compatible.WithAudio;
  }

  predicate CompatibleCall(form: Json, call: ToolCall, parse: string -> Option<Json>)
  {
    Is(Find(form, "name"), call.name) && Is(Find(form, "arguments"), call.rawArguments) && ArgumentsOf(call, parse)
  }

  /** The fields of the calls: of the listed entries, or of the legacy call. */
  lemma {:induction false} CompatibleCallsRead(native: Json, origin: Origin, parse: string -> Option<Json>)
    requires Compatible.ParsedMessage(native, origin, parse).Ok?
    ensures var calls := Compatible.ParsedMessage(native, origin, parse).value.calls;
            var listed := Find(native, "tool_calls");
            if !NoneOrNull(listed) && listed.value != Arr([]) then
              && listed.value.Arr? && |calls| == |listed.value.items|
              && forall i | 0 <= i < |calls| ::
                   var entry := listed.value.items[i];
                   && Is(Find(entry, "id"), calls[i].id) && calls[i].metadata == entry
                   && Find(entry, "function").Some? && CompatibleCall(Find(entry, "function").value, calls[i], parse)
            else if NoneOrNull(Find(native, "function_call")) then calls == []
            else
              && |calls| == 1 && CompatibleCall(Find(native, "function_call").value, calls[0], parse)
              && calls[0].id == SyntheticIds.LegacyId(origin.run, origin.messages)
              && calls[0].metadata == Obj(map["legacy_function_call" := Bool(true),
                                              "function_call" := Find(native, "function_call").value])
  {
    CompatibleMessageRead(native, origin, parse);
    Compatible.CallsAreNative(native, origin, parse);
    hide Compatible.ParsedMessage, SyntheticIds.LegacyId, CompatiblePart, CompatibleAudio, CompatibleEntry;
    var calls, listed := Compatible.ParsedMessage(native, origin, parse).value.calls, Find(native, "tool_calls");
    if !NoneOrNull(listed) && listed.value != Arr([]) {
      hide Compatible.CallOf;
      forall i | 0 <= i < |listed.value.items|
        ensures var entry := listed.value.items[i];
                && Is(Find(entry, "id"), calls[i].id) && calls[i].metadata == entry
                && Find(entry, "function").Some? && CompatibleCall(Find(entry, "function").value, calls[i], parse)
      {
        CompatibleEntryCall(listed.value.items[i], parse);
      }
    }
  }

  lemma {:induction false} CompatibleEntryCall(entry: Json, parse: string -> Option<Json>)
    requires CompatibleEntry(entry)
    ensures var call := Compatible.CallOf(entry, parse);
            Is(Find(entry, "id"), call.id) && call.metadata == entry
            && CompatibleCall(Find(entry, "function").value, call, parse)
  {
  }

  // ---- Gemini ----

  /** The fields that carry what a part holds. */
  function Carrier(i: nat): (field: string)
    requires i < 7
  {
    ["text", "inlineData", "fileData", "functionCall", "functionResponse", "executableCode", "codeExecutionResult"][i]
  }

  /** At most one of them is there. */
  predicate OneOf(part: Json)
  {
    exists k | 0 <= k < 7 :: NoOther(part, k)
  }

  predicate NoOther(part: Json, k: nat)
  {
    forall i | 0 <= i < 7 && i != k :: Find(part, Carrier(i)).None?
  }

  predicate GeminiData(data: Option<Json>, named: string)
  {
    data.Some? ==>
      && data.value.Obj? && TextOrNone(Find(data.value, "mimeType")) && TextOrNone(Find(data.value, named))
      && TextOrNone(Find(data.value, "displayName"))
  }

  /** The shape that every part has to have, whatever it carries. */
  predicate GeminiShape(part: Json)
  {
    && part.Obj? && TextOrNone(Find(part, "text")) && TextOrNone(Find(part, "thoughtSignature"))
    && (Find(part, "thought").None? || Find(part, "thought").value.Bool?)
    && GeminiData(Find(part, "inlineData"), "data") && GeminiData(Find(part, "fileData"), "fileUri")
    && (Find(part, "functionCall").Some? ==>
          var call := Find(part, "functionCall").value;
          && call.Obj? && TextOrNone(Find(call, "id")) && IsName(Find(call, "name"))
          && (Find(call, "args").None? || Find(call, "args").value.Obj?))
    && OneOf(part)
  }

  /** And what its media have to hold. */
  predicate GeminiPart(part: Json)
  {
    && GeminiShape(part)
    && (Find(part, "inlineData").Some? ==>
          var data := Find(part, "inlineData").value;
          && IsName(Find(data, "mimeType")) && IsText(Find(data, "data"))
          && HoldsBytes(Find(data, "data").value.text))
    && (Find(part, "fileData").Some? ==> IsName(Find(Find(part, "fileData").value, "fileUri")))
  }

  lemma {:induction false} CarriersAre()
    ensures Carrier(0) == "text" && Carrier(1) == "inlineData" && Carrier(2) == "fileData"
    ensures Carrier(3) == "functionCall" && Carrier(4) == "functionResponse" && Carrier(5) == "executableCode"
    ensures Carrier(6) == "codeExecutionResult"
  {
  }

  lemma {:induction false} OneOfExactly(part: Json)
    ensures Gemini.OnePayload(part) <==> OneOf(part)
  {
    CarriersAre();
    hide Carrier;
    assert forall i | 0 <= i < 7 :: Gemini.Present(part, Carrier(i)) == if Find(part, Carrier(i)).None? then 0 else 1;
    assert Gemini.PayloadFields(part) == Gemini.Present(part, Carrier(0)) + Gemini.Present(part, Carrier(1))
        + Gemini.Present(part, Carrier(2)) + Gemini.Present(part, Carrier(3)) + Gemini.Present(part, Carrier(4))
        + Gemini.Present(part, Carrier(5)) + Gemini.Present(part, Carrier(6));
    hide Gemini.PayloadFields, Gemini.Present;
    if Gemini.OnePayload(part) {
      if k :| 0 <= k < 7 && Find(part, Carrier(k)).Some? {
        assert NoOther(part, k);
      } else {
        assert NoOther(part, 0);
      }
    }
  }

  lemma {:induction false} NoText(text: string)
    requires text == []
    ensures Base64.DecodedText(text).None?
  {
  }

  lemma {:induction false} OneOfPairs(part: Json)
    requires OneOf(part)
    ensures Find(part, "text").None? || Find(part, "inlineData").None?
    ensures Find(part, "text").None? || Find(part, "fileData").None?
    ensures Find(part, "inlineData").None? || Find(part, "fileData").None?
  {
    CarriersAre();
    hide Carrier;
    var k :| 0 <= k < 7 && NoOther(part, k);
    assert (k != 0 ==> Find(part, Carrier(0)).None?) && (k != 1 ==> Find(part, Carrier(1)).None?)
        && (k != 2 ==> Find(part, Carrier(2)).None?);
  }

  lemma {:induction false} GeminiShapeRead(part: Json)
    ensures Gemini.WellShaped(part) <==> GeminiShape(part)
  {
    OneOfExactly(part);
    hide OneOf, Gemini.OnePayload;
  }

  function GeminiWhy(part: Json): (code: string)
  {
    if !GeminiShape(part) then "malformed_response"
    else if Find(part, "inlineData").Some? then "malformed_inline_data"
    else "malformed_file_data"
  }

  lemma {:induction false} GeminiPartRead(part: Json, origin: Origin, index: nat, dump: Json -> string)
    ensures !Gemini.ReadPart(part, origin, index, dump).BadPart? <==> GeminiPart(part)
    ensures Gemini.ReadPart(part, origin, index, dump).BadPart? ==>
              Gemini.ReadPart(part, origin, index, dump).failure == Thrown(GeminiWhy(part))
  {
    GeminiShapeRead(part);
    if GeminiShape(part) {
      OneOfPairs(part);
      GeminiMedia(part);
    }
    hide GeminiShape, Gemini.WellShaped, Gemini.ReadInline, Gemini.ReadFile, HoldsBytes, Gemini.CallOf;
  }

  lemma {:induction false} GeminiMedia(part: Json)
    requires GeminiShape(part)
    ensures Find(part, "inlineData").Some? ==>
              var data := Find(part, "inlineData").value;
              !Gemini.ReadInline(data).BadPart? <==>
                && IsName(Find(data, "mimeType")) && IsText(Find(data, "data"))
                && HoldsBytes(Find(data, "data").value.text)
    ensures Find(part, "inlineData").Some? && Gemini.ReadInline(Find(part, "inlineData").value).BadPart? ==>
              Gemini.ReadInline(Find(part, "inlineData").value).failure == Thrown("malformed_inline_data")
    ensures Find(part, "fileData").Some? ==>
              var data := Find(part, "fileData").value;
              !Gemini.ReadFile(data).BadPart? <==> IsName(Find(data, "fileUri"))
    ensures Find(part, "fileData").Some? && Gemini.ReadFile(Find(part, "fileData").value).BadPart? ==>
              Gemini.ReadFile(Find(part, "fileData").value).failure == Thrown("malformed_file_data")
  {
    NoText("");
    hide OneOf, Base64.DecodedText, Base64.Encoded, Gemini.MediaKind;
  }

  lemma {:induction false} GeminiParts(parts: seq<Json>, origin: Origin, dump: Json -> string)
    ensures Gemini.ReadParts(parts, origin, dump).Ok? <==> forall i | 0 <= i < |parts| :: GeminiPart(parts[i])
    ensures Gemini.ReadParts(parts, origin, dump).Err? ==>
              FirstWrong(parts, GeminiPart, GeminiWhy, Gemini.ReadParts(parts, origin, dump).error)
  {
    hide Gemini.ReadPart, GeminiPart, GeminiWhy;
    if parts != [] {
      var n := |parts| - 1;
      GeminiParts(parts[..n], origin, dump);
      assert forall i | 0 <= i < n :: parts[..n][i] == parts[i];
      if Gemini.ReadParts(parts[..n], origin, dump).Ok? {
        GeminiPartRead(parts[n], origin, |Gemini.ReadParts(parts[..n], origin, dump).value.calls|, dump);
        if Gemini.ReadParts(parts, origin, dump).Err? {
          assert WrongAt(parts, GeminiPart, GeminiWhy, Gemini.ReadParts(parts, origin, dump).error, n);
        }
      } else {
        FirstWrongLonger(parts[..n], parts, GeminiPart, GeminiWhy, Gemini.ReadParts(parts[..n], origin, dump).error);
      }
    }
  }

  /** The content of the first candidate, which may lack its parts only if the candidate gives a
      reason; a blocked prompt needs no candidate. */
  predicate GeminiBody(body: Json, native: Json)
  {
    var candidates := Find(body, "candidates");
    if candidates.None? || candidates.value == Arr([]) then
      && Find(body, "promptFeedback").Some? && IsName(Find(Find(body, "promptFeedback").value, "blockReason"))
      && native == Obj(map[])
    else
      && candidates.value.Arr? && candidates.value.items[0].Obj?
      && var candidate := candidates.value.items[0];
         && native == (if Find(candidate, "content").Some? then Find(candidate, "content").value else Obj(map[]))
         && native.Obj? && (Find(native, "parts").Some? || IsName(Find(candidate, "finishReason")))
  }

  predicate GeminiNative(native: Json)
  {
    var parts := Find(native, "parts");
    parts.None? || (parts.value.Arr? && forall i | 0 <= i < |parts.value.items| :: GeminiPart(parts.value.items[i]))
  }

  /** Exactly which responses are read. */
  lemma {:induction false} GeminiRead(body: Json, origin: Origin, dump: Json -> string)
    ensures Gemini.ParsedResponse(body, origin, dump).Ok? <==>
              exists native :: GeminiBody(body, native) && GeminiNative(native)
    ensures Gemini.ParsedResponse(body, origin, dump).Ok? ==>
              && Gemini.NativeContent(body).Ok? && GeminiBody(body, Gemini.NativeContent(body).value)
              && IsAnswer(Gemini.ParsedResponse(body, origin, dump).value)
              && Gemini.ParsedResponse(body, origin, dump).value.metadata
                 == Obj(map["provider" := Str("gemini"), "content" := Gemini.NativeContent(body).value])
    ensures Gemini.ParsedResponse(body, origin, dump).Err? ==>
              var error := Gemini.ParsedResponse(body, origin, dump).error;
              if exists native ::
                   GeminiBody(body, native) && Find(native, "parts").Some? && Find(native, "parts").value.Arr?
              then exists native :: GeminiBody(body, native)
                     && Find(native, "parts").Some? && Find(native, "parts").value.Arr?
                     && FirstWrong(Find(native, "parts").value.items, GeminiPart, GeminiWhy, error)
              else error == Thrown("malformed_response")
  {
    forall native ensures GeminiBody(body, native) <==> Gemini.NativeContent(body) == Ok(native) {
      GeminiContentRead(body, native);
    }
    hide GeminiBody;
    var native := Gemini.NativeContent(body);
    if native.Ok? {
      var parts := Find(native.value, "parts");
      GeminiParts(if parts.Some? && parts.value.Arr? then parts.value.items else [], origin, dump);
    }
    hide Gemini.NativeContent, Gemini.ReadParts, GeminiPart, GeminiWhy, FirstWrong;
    assert native.Ok? ==> GeminiBody(body, native.value);
    assert native.Err? ==> native.error == Thrown("malformed_response") by { GeminiContentFails(body); }
    assert forall other :: GeminiBody(body, other) ==> native == Ok(other);
  }

  lemma {:induction false} GeminiContentRead(body: Json, native: Json)
    ensures GeminiBody(body, native) <==> Gemini.NativeContent(body) == Ok(native)
  {
  }

  lemma {:induction false} GeminiContentFails(body: Json)
    ensures Gemini.NativeContent(body).Err? ==> Gemini.NativeContent(body).error == Thrown("malformed_response")
  {
  }

  /** What media are read as: their kind by what their type begins with, their very bytes, or
      where they are. */
  lemma {:induction false} GeminiMediaRead(part: Json, origin: Origin, index: nat, dump: Json -> string)
    requires GeminiPart(part) && (Find(part, "inlineData").Some? || Find(part, "fileData").Some?)
    ensures var inline := Find(part, "inlineData").Some?;
            var data := Find(part, if inline then "inlineData" else "fileData").value;
            var mediaType := StringField(data, "mimeType");
            var kind := if "image/" <= mediaType then "image" else if "audio/" <= mediaType then "audio" else "file";
            var wire := if inline then
                          Obj(map["inlineData" := Obj(map["mimeType" := Str(mediaType),
                                                          "data" := Str(Base64.Compact(StringField(data, "data")))])])
                        else if mediaType == [] then
                          Obj(map["fileData" := Obj(map["fileUri" := Str(StringField(data, "fileUri"))])])
                        else
                          Obj(map["fileData" := Obj(map["fileUri" := Str(StringField(data, "fileUri")),
                                                        "mimeType" := Str(mediaType)])]);
            Gemini.ReadPart(part, origin, index, dump) == Gemini.ContentPart(Media(kind, wire))
  {
    GeminiPartRead(part, origin, index, dump);
    GeminiShapeRead(part);
    OneOfPairs(part);
    hide OneOf, GeminiShape, Gemini.WellShaped, Base64.Compact, Base64.Decoded, Base64.Encoded, Gemini.CallOf;
    var inline := Find(part, "inlineData").Some?;
    if inline {
      var data := StringField(Find(part, "inlineData").value, "data");
      Base64.DecodedExact(Base64.Compact(data), Base64.DecodedText(data).value);
    }
  }

  /** The fields of a call. */
  lemma {:induction false} GeminiCallRead(part: Json, origin: Origin, index: nat, dump: Json -> string)
    requires GeminiPart(part) && Find(part, "functionCall").Some?
    ensures var call, native := Gemini.CallOf(part, origin, index, dump), Find(part, "functionCall").value;
            && Is(Find(native, "name"), call.name)
            && (if IsName(Find(native, "id")) then Is(Find(native, "id"), call.id)
                else call.id == SyntheticIds.GeminiId(origin.run, origin.messages, index))
            && call.arguments == (if Find(native, "args").Some? then Find(native, "args").value else Obj(map[]))
            && call.rawArguments == dump(call.arguments) && call.argumentsValid && call.metadata == part
  {
    hide OneOf, SyntheticIds.GeminiId, GeminiData, HoldsBytes;
  }
}
