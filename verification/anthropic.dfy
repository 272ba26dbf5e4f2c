/** The Anthropic adapter: reading a response, and replaying a transcript as turns. */
module Anthropic {
  import opened Json
  import opened Types
  import opened Turns
  import opened Wire

  const FIELD := "content"

  const MALFORMED := Thrown("malformed_response")

  // ---- reading a response ----

  datatype Block = CallBlock(call: ToolCall) | ContentBlock(content: Content) | BadBlock

  predicate NonEmptyString(value: Option<Json>)
  {
    value.Some? && value.value.Str? && value.value.text != []
  }

  /** One content block of a response. `dump` prints a JSON value. */
  function ReadBlock(block: Json, dump: Json -> string): (read: Block)
  {
    if !block.Obj? then BadBlock
    else if Find(block, "type").Some? && !Find(block, "type").value.Str? then BadBlock
    else
      var kind := StringField(block, "type");
      if kind == "text" then
        var text := Find(block, "text");
        if text.None? || !text.value.Str? then BadBlock else ContentBlock(Text(text.value.text))
      else if kind == "tool_use" then
        var id := Find(block, "id");
        var name := Find(block, "name");
        var input := Find(block, "input");
        if !NonEmptyString(id) || !NonEmptyString(name) || input.None? || !input.value.Obj? then BadBlock
        else CallBlock(ToolCall(id.value.text, name.value.text, input.value, dump(input.value), true, block))
      else ContentBlock(Extension("anthropic", block))
  }

  datatype Read = Read(contents: seq<Content>, calls: seq<ToolCall>)

  /** All blocks, each contributing to the contents or to the calls, in order. */
  function ReadBlocks(blocks: seq<Json>, dump: Json -> string): (read: Result<Read, Failure>)
  {
    if blocks == [] then Ok(Read([], []))
    else
      var n := |blocks| - 1;
      match ReadBlocks(blocks[..n], dump)
      case Err(e) => Err(e)
      case Ok(front) =>
        match ReadBlock(blocks[n], dump)
        case BadBlock => Err(MALFORMED)
        case CallBlock(call) => Ok(Read(front.contents, front.calls + [call]))
        case ContentBlock(content) => Ok(Read(front.contents + [content], front.calls))
  }

  datatype Parsed = Parsed(message: Message, requiresContinuation: bool)

  function Metadata(native: Json): (metadata: Json)
  {
    Obj(map["provider" := Str("anthropic"), "content" := native])
  }

  /** The message of a successful response body. */
  function ParsedResponse(body: Json, dump: Json -> string): (parsed: Result<Parsed, Failure>)
  {
    var native := Find(body, "content");
    if native.None? || !native.value.Arr? then Err(MALFORMED)
    else
      match ReadBlocks(native.value.items, dump)
      case Err(e) => Err(e)
      case Ok(read) =>
        Ok(Parsed(AssistantMessage(read.contents, read.calls, Metadata(native.value)),
                  StringField(body, "stop_reason") == "pause_turn"))
  }

  method ParseResponse(body: Json, dump: Json -> string) returns (parsed: Result<Parsed, Failure>)
    ensures parsed == ParsedResponse(body, dump)
  {
    var bodyContent := Find(body, "content");
    if bodyContent.None? || !bodyContent.value.Arr? { return Err(MALFORMED); }
    var native := bodyContent.value;
    var contents: seq<Content> := [];
    var calls: seq<ToolCall> := [];
    hide ReadBlock;
    for i := 0 to |native.items|
      invariant ReadBlocks(native.items[..i], dump) == Ok(Read(contents, calls))
    {
      assert native.items[..i + 1][..i] == native.items[..i];
      match ReadBlock(native.items[i], dump) {
        case BadBlock =>
          FirstBadBlock(native.items, dump, i + 1);
          return Err(MALFORMED);
        case CallBlock(call) => calls := calls + [call];
        case ContentBlock(content) => contents := contents + [content];
      }
    }
    assert native.items[..|native.items|] == native.items;
    parsed := Ok(Parsed(AssistantMessage(contents, calls, Metadata(native)),
                        StringField(body, "stop_reason") == "pause_turn"));
  }

  lemma {:induction false} FirstBadBlock(blocks: seq<Json>, dump: Json -> string, n: nat)
    requires n <= |blocks| && ReadBlocks(blocks[..n], dump) == Err(MALFORMED)
    ensures ReadBlocks(blocks, dump) == Err(MALFORMED)
    decreases |blocks| - n
  {
    hide ReadBlock;
    if n < |blocks| {
      assert blocks[..n + 1][..n] == blocks[..n];
      FirstBadBlock(blocks, dump, n + 1);
    } else {
      assert blocks[..n] == blocks;
    }
  }

  // ---- replaying a transcript ----

  predicate HasNative(message: Message)
  {
    StringField(message.metadata, "provider") == "anthropic"
    && Find(message.metadata, "content").Some? && Find(message.metadata, "content").value.Arr?
  }

  /** The wire form of a content part. A media part carries its source object, null when
      the wire format has none for it. */
  function PartOf(content: Content): (part: Result<Json, Failure>)
  {
    match content
    case Text(value) => Ok(Obj(map["type" := Str("text"), "text" := Str(value)]))
    case Extension(provider, data) =>
      if provider == "anthropic" then Ok(data) else Err(Thrown("unsupported_content"))
    case Media(kind, source) =>
      if source != Null && kind == "image" then Ok(Obj(map["type" := Str("image"), "source" := source]))
      else if source != Null && kind == "file" then Ok(Obj(map["type" := Str("document"), "source" := source]))
      else Err(Thrown(if kind == "file" then "unsupported_document" else "unsupported_content"))
  }

  function PartsOf(contents: seq<Content>): (parts: Result<seq<Json>, Failure>)
  {
    All(contents, PartOf)
  }

  function ToolUse(call: ToolCall): (block: Json)
  {
    Obj(map["type" := Str("tool_use"), "id" := Str(call.id), "name" := Str(call.name), "input" := call.arguments])
  }

  function ToolResult(message: Message, parts: seq<Json>): (block: Json)
  {
    var block := map["type" := Str("tool_result"), "tool_use_id" := Str(message.callId), "content" := Arr(parts)];
    Obj(if message.isError then block["is_error" := Bool(true)] else block)
  }

  /** What one message contributes: nothing for a system message. */
  function PieceOf(message: Message): (piece: Result<Option<Piece>, Failure>)
  {
    if message.role.SystemRole? then Ok(None)
    else if message.role.AssistantRole? && HasNative(message) then
      Ok(Some(Piece("assistant", Find(message.metadata, "content").value.items)))
    else
      match PartsOf(message.contents)
      case Err(e) => Err(e)
      case Ok(parts) =>
        match message.role
        case ToolRole => Ok(Some(Piece("user", [ToolResult(message, parts)])))
        case AssistantRole =>
          Ok(Some(Piece("assistant",
                        parts + seq(|message.calls|, i requires 0 <= i < |message.calls| =>
                                         ToolUse(message.calls[i])))))
        case _ => Ok(Some(Piece("user", parts)))
  }

  function AfterMessage(turns: seq<Json>, message: Message): (after: Result<seq<Json>, Failure>)
  {
    match PieceOf(message)
    case Err(e) => Err(e)
    case Ok(None) => Ok(turns)
    case Ok(Some(piece)) => Ok(Appended(turns, FIELD, piece))
  }

  /** The turns after a whole history, message by message. */
  function Rendered(turns: seq<Json>, history: seq<Message>): (after: Result<seq<Json>, Failure>)
    decreases |history|
  {
    if history == [] then Ok(turns)
    else
      match AfterMessage(turns, history[0])
      case Err(e) => Err(e)
      case Ok(next) => Rendered(next, history[1..])
  }

  method AppendHistory(list: TurnList, message: Message) returns (error: Option<Failure>)
    requires list.field == FIELD
    modifies list`turns
    ensures error.None? ==> AfterMessage(old(list.turns), message) == Ok(list.turns)
    ensures error.Some? ==> AfterMessage(old(list.turns), message) == Err(error.value) && list.turns == old(list.turns)
  {
    error := None;
    if message.role.SystemRole? { return; }
    if message.role.AssistantRole? && HasNative(message) {
      list.AppendTurn("assistant", Find(message.metadata, "content").value.items);
      return;
    }
    var parts := ConvertAll(message.contents, PartOf);
    if parts.Err? { return Some(parts.error); }
    if message.role.ToolRole? {
      list.AppendTurn("user", [ToolResult(message, parts.value)]);
      return;
    }
    var blocks := parts.value;
    if message.role.AssistantRole? {
      ghost var uses := seq(|message.calls|, i requires 0 <= i < |message.calls| => ToolUse(message.calls[i]));
      for i := 0 to |message.calls|
        invariant blocks == parts.value + uses[..i]
        invariant list.turns == old(list.turns)
      {
        blocks := blocks + [ToolUse(message.calls[i])];
      }
      assert uses[..|message.calls|] == uses;
      list.AppendTurn("assistant", blocks);
      return;
    }
    list.AppendTurn("user", blocks);
  }

  method RenderHistory(history: seq<Message>) returns (turns: Result<seq<Json>, Failure>)
    ensures turns == Rendered([], history)
  {
    var list := new TurnList(FIELD);
    hide AfterMessage;
    assert history[0..] == history;
    for i := 0 to |history|
      invariant list.field == FIELD
      invariant Rendered([], history) == Rendered(list.turns, history[i..])
    {
      assert history[i..][0] == history[i] && history[i..][1..] == history[i + 1..];
      var error := AppendHistory(list, history[i]);
      if error.Some? { return Err(error.value); }
    }
    turns := Ok(list.turns);
  }

  /** What a history contributes, message by message. */
  function PiecesOf(history: seq<Message>): (pieces: seq<Piece>)
  {
    if history == [] then []
    else
      (match PieceOf(history[0])
       case Ok(Some(piece)) => [piece]
       case _ => [])
      + PiecesOf(history[1..])
  }

  lemma {:induction false} RenderedIsBuilt(pieces: seq<Piece>, history: seq<Message>)
    requires Rendered(Built(FIELD, pieces), history).Ok?
    ensures Rendered(Built(FIELD, pieces), history) == Ok(Built(FIELD, pieces + PiecesOf(history)))
    decreases |history|
  {
    hide PieceOf, Appended, Built;
    if history == [] {
      assert pieces + [] == pieces;
    } else {
      var piece := PieceOf(history[0]).value;
      var next := if piece.Some? then pieces + [piece.value] else pieces;
      if piece.Some? { BuiltNext(FIELD, pieces, piece.value); }
      RenderedIsBuilt(next, history[1..]);
      hide Rendered;
      assert next + PiecesOf(history[1..]) == pieces + PiecesOf(history);
    }
  }

  /** The turns of any history are the canonical grouping of what its messages contribute:
      roles alternate, and no block is lost, added or moved. */
  lemma {:induction false} RenderedIsGrouped(history: seq<Message>)
    requires Rendered([], history).Ok?
    ensures var groups := Grouped(PiecesOf(history));
            && Rendered([], history) == Ok(Turned(FIELD, groups))
            && Alternating(groups) && Flat(groups) == Flat(PiecesOf(history))
  {
    hide Rendered, PiecesOf, Grouped, Turned;
    assert Built(FIELD, []) == [];
    RenderedIsBuilt([], history);
    assert [] + PiecesOf(history) == PiecesOf(history);
    BuiltIsGrouped(FIELD, PiecesOf(history));
  }

  /** Every content has a wire form, or the message needs none. */
  predicate Renderable(message: Message)
  {
    message.role.SystemRole? || (message.role.AssistantRole? && HasNative(message))
    || forall i | 0 <= i < |message.contents| :: PartOf(message.contents[i]).Ok?
  }

  /** A history can be sent exactly when each of its messages can. */
  lemma {:induction false} RenderedExactly(turns: seq<Json>, history: seq<Message>)
    ensures Rendered(turns, history).Ok? <==> forall i | 0 <= i < |history| :: Renderable(history[i])
    decreases |history|
  {
    if history != [] {
      PieceExactly(history[0]);
      hide PieceOf, Renderable, Appended;
      if AfterMessage(turns, history[0]).Ok? {
        RenderedExactly(AfterMessage(turns, history[0]).value, history[1..]);
      }
      assert forall i | 0 < i < |history| :: history[i] == history[1..][i - 1];
    }
  }

  lemma {:induction false} PieceExactly(message: Message)
    ensures PieceOf(message).Ok? <==> Renderable(message)
  {
    AllExact(message.contents, PartOf);
    hide PartOf, All;
  }

  // ---- parsing and replaying fit together ----

  predicate IsUse(block: Json) { StringField(block, "type") == "tool_use" }

  predicate IsResult(block: Json) { StringField(block, "type") == "tool_result" }

  /** The ids of the tool uses among blocks, in order. */
  function UseIds(blocks: seq<Json>): (ids: seq<string>)
  {
    if blocks == [] then []
    else
      var n := |blocks| - 1;
      UseIds(blocks[..n]) + if IsUse(blocks[n]) then [StringField(blocks[n], "id")] else []
  }

  function CallIds(calls: seq<ToolCall>): (ids: seq<string>)
  {
    seq(|calls|, i requires 0 <= i < |calls| => calls[i].id)
  }

  lemma {:induction false} UseIdsAppend(front: seq<Json>, back: seq<Json>)
    ensures UseIds(front + back) == UseIds(front) + UseIds(back)
  {
    if back == [] {
      assert front + back == front;
    } else {
      var n := |back| - 1;
      assert (front + back)[..|front + back| - 1] == front + back[..n];
      UseIdsAppend(front, back[..n]);
    }
  }

  /** The normalized calls are the native tool uses, in order: id, name, input, and the
      whole native block. */
  lemma {:induction false} CallsAreUses(blocks: seq<Json>, dump: Json -> string)
    requires ReadBlocks(blocks, dump).Ok?
    ensures CallIds(ReadBlocks(blocks, dump).value.calls) == UseIds(blocks)
    ensures forall call | call in ReadBlocks(blocks, dump).value.calls ::
              && call.metadata in blocks && IsUse(call.metadata) && call.argumentsValid
              && Find(call.metadata, "id") == Some(Str(call.id)) && call.id != []
              && Find(call.metadata, "name") == Some(Str(call.name)) && call.name != []
              && Find(call.metadata, "input") == Some(call.arguments) && call.arguments.Obj?
  {
    if blocks != [] {
      var n := |blocks| - 1;
      CallsAreUses(blocks[..n], dump);
      var read := ReadBlock(blocks[n], dump);
      assert IsUse(blocks[n]) <==> read.CallBlock?;
      assert blocks == blocks[..n] + [blocks[n]];
    }
  }

  function OtherBlocks(blocks: seq<Json>): (others: seq<Json>)
  {
    if blocks == [] then []
    else
      var n := |blocks| - 1;
      OtherBlocks(blocks[..n]) + if IsUse(blocks[n]) then [] else [blocks[n]]
  }

  /** What a content says about the block it came from. */
  predicate Shows(block: Json, content: Content)
  {
    match content
    case Text(text) => StringField(block, "type") == "text" && Find(block, "text") == Some(Str(text))
    case Extension(provider, data) => provider == "anthropic" && data == block && StringField(block, "type") != "text"
    case Media(_, _) => false
  }

  /** The contents are the other blocks, in order: text as text, all else untouched. */
  lemma {:induction false} ContentsShowBlocks(blocks: seq<Json>, dump: Json -> string)
    requires ReadBlocks(blocks, dump).Ok?
    ensures var contents := ReadBlocks(blocks, dump).value.contents;
            && |contents| == |OtherBlocks(blocks)|
            && forall k | 0 <= k < |contents| :: Shows(OtherBlocks(blocks)[k], contents[k])
  {
    if blocks != [] {
      var n := |blocks| - 1;
      ContentsShowBlocks(blocks[..n], dump);
      var read := ReadBlock(blocks[n], dump);
      assert IsUse(blocks[n]) <==> read.CallBlock?;
      assert read.ContentBlock? ==> Shows(blocks[n], read.content);
      hide ReadBlock, Shows, IsUse;
    }
  }

  /** A parsed response enters the next request as exactly its native blocks. */
  lemma {:induction false} ReplayIsFaithful(body: Json, dump: Json -> string)
    requires ParsedResponse(body, dump).Ok?
    ensures var message := ParsedResponse(body, dump).value.message;
            && Find(body, "content").Some? && Find(body, "content").value.Arr?
            && PieceOf(message) == Ok(Some(Piece("assistant", Find(body, "content").value.items)))
            && CallIds(message.calls) == UseIds(Find(body, "content").value.items)
  {
    CallsAreUses(Find(body, "content").value.items, dump);
  }
}
