/** Tool uses and tool results stay paired on the wire, for every transcript that
    generation runs build. */
module Pairing {
  import opened Json
  import opened Types
  import opened Transcript
  import opened Turns
  import opened Anthropic
  import opened Wire
  import Client
  import Sessions

  // ---- the claim, on the array of turns as it is sent ----

  predicate WellTyped(turn: Json)
  {
    turn.Obj? && (StringField(turn, "role") == "user" || StringField(turn, "role") == "assistant")
    && Find(turn, FIELD).Some? && Find(turn, FIELD).value.Arr?
  }

  function Role(turn: Json): (role: string) { StringField(turn, "role") }

  function Blocks(turn: Json): (blocks: seq<Json>)
    requires WellTyped(turn)
  {
    Find(turn, FIELD).value.items
  }

  /** The blocks begin with one result for each id, in order, and hold no other result. */
  predicate Answered(blocks: seq<Json>, ids: seq<string>)
  {
    |ids| <= |blocks|
    && (forall i | 0 <= i < |ids| :: IsResult(blocks[i]) && StringField(blocks[i], "tool_use_id") == ids[i])
    && (forall i | |ids| <= i < |blocks| :: !IsResult(blocks[i]))
  }

  /** Roles alternate; the tool uses of an assistant turn are answered exactly once, in
      order, at the start of the next turn, which is the user's; and no user turn holds any
      other tool result. */
  predicate WirePaired(turns: seq<Json>)
  {
    && (forall t | 0 <= t < |turns| :: WellTyped(turns[t]))
    && (forall t | 0 < t < |turns| :: Role(turns[t - 1]) != Role(turns[t]))
    && (forall t | 0 <= t < |turns| && Role(turns[t]) == "assistant" && UseIds(Blocks(turns[t])) != [] ::
          t + 1 < |turns| && Answered(Blocks(turns[t + 1]), UseIds(Blocks(turns[t]))))
    && (forall t: nat | t < |turns| :: UserTurnOk(turns, t))
  }

  /** A user turn begins with the results of the tool uses before it, and has no others. */
  predicate UserTurnOk(turns: seq<Json>, t: nat)
    requires t < |turns| && forall u | 0 <= u < |turns| :: WellTyped(turns[u])
  {
    Role(turns[t]) == "user" ==>
      Answered(Blocks(turns[t]), if t == 0 then [] else UseIds(Blocks(turns[t - 1])))
  }

  // ---- the same on groups ----

  predicate Known(role: string) { role == "user" || role == "assistant" }

  /** A user group answers what the group before it asks. */
  predicate UserOk(groups: seq<Piece>, t: nat)
    requires t < |groups|
  {
    groups[t].role == "user" ==> Answered(groups[t].blocks, if t == 0 then [] else UseIds(groups[t - 1].blocks))
  }

  predicate Settled(groups: seq<Piece>)
  {
    && Alternating(groups)
    && (forall t | 0 <= t < |groups| :: Known(groups[t].role) && UserOk(groups, t))
    && (groups != [] && groups[|groups| - 1].role == "assistant" ==> UseIds(groups[|groups| - 1].blocks) == [])
  }

  /** In the middle of a round: `ids` were asked for, the first `k` are answered. */
  predicate Pending(groups: seq<Piece>, ids: seq<string>, k: nat)
  {
    var n := |groups| - 1;
    && groups != [] && k <= |ids|
    && Alternating(groups)
    && (forall t | 0 <= t < |groups| :: Known(groups[t].role))
    && (forall t | 0 <= t < n :: UserOk(groups, t))
    && (k == 0 ==> groups[n].role == "assistant" && UseIds(groups[n].blocks) == ids)
    && (k > 0 ==>
          && groups[n].role == "user" && n > 0 && UseIds(groups[n - 1].blocks) == ids
          && |groups[n].blocks| == k && Answered(groups[n].blocks, ids[..k]))
  }

  /** A user message that smuggles in no tool result of its own. */
  ghost predicate Plain(message: Message)
  {
    PartsOf(message.contents).Ok? ==>
      forall i | 0 <= i < |PartsOf(message.contents).value| :: !IsResult(PartsOf(message.contents).value[i])
  }

  /** An assistant message as the adapter reads it, its calls as the client lets them pass. */
  ghost predicate FromResponse(message: Message, dump: Json -> string)
  {
    exists body :: ParsedResponse(body, dump).Ok? && ParsedResponse(body, dump).value.message == message
  }

  /** Every assistant message comes from a response; nothing is asked of user messages. */
  ghost predicate Sound(message: Message, dump: Json -> string)
  {
    message.role.AssistantRole? ==> FromResponse(message, dump)
  }

  ghost predicate Sourced(history: seq<Message>, dump: Json -> string)
  {
    forall i | 0 <= i < |history| :: Sound(history[i], dump)
  }

  ghost predicate AllPlain(history: seq<Message>)
  {
    forall i | 0 <= i < |history| && history[i].role.UserRole? :: Plain(history[i])
  }

  predicate Joins(groups: seq<Piece>, piece: Piece)
  {
    groups != [] && groups[|groups| - 1].role == piece.role
  }

  lemma {:induction false} MergeShape(groups: seq<Piece>, piece: Piece)
    requires Alternating(groups)
    ensures var after := Merge(groups, piece);
            var last := |after| - 1;
            && Alternating(after) && last >= 0
            && after[last].role == piece.role
            && last == (if Joins(groups, piece) then |groups| - 1 else |groups|)
            && after[last].blocks == (if Joins(groups, piece) then groups[last].blocks + piece.blocks else piece.blocks)
            && (forall t | 0 <= t < last :: after[t] == groups[t])
  {
  }

  lemma {:induction false} FrontKept(groups: seq<Piece>, after: seq<Piece>, t: nat)
    requires t < |groups| && t < |after| && UserOk(groups, t)
    requires forall u | 0 <= u <= t :: after[u] == groups[u]
    ensures UserOk(after, t)
  {
    hide Answered, UseIds;
  }

  /** Merging one more piece leaves the groups before the last as they were. */
  lemma {:induction false} FrontStays(groups: seq<Piece>, piece: Piece)
    requires Alternating(groups) && Known(piece.role)
    requires forall t | 0 <= t < |groups| :: Known(groups[t].role) && (t < |groups| - 1 ==> UserOk(groups, t))
    requires groups != [] && !Joins(groups, piece) ==> UserOk(groups, |groups| - 1)
    ensures var after := Merge(groups, piece);
            forall t | 0 <= t < |after| :: Known(after[t].role) && (t < |after| - 1 ==> UserOk(after, t))
  {
    var after := Merge(groups, piece);
    MergeShape(groups, piece);
    hide Merge, Alternating, UserOk;
    forall t | 0 <= t < |after| ensures Known(after[t].role) && (t < |after| - 1 ==> UserOk(after, t)) {
      if t < |after| - 1 {
        assert Known(groups[t].role) && UserOk(groups, t);
        FrontKept(groups, after, t);
      }
    }
  }

  lemma {:induction false} UserStep(groups: seq<Piece>, blocks: seq<Json>)
    requires Settled(groups)
    requires forall i | 0 <= i < |blocks| :: !IsResult(blocks[i])
    ensures Settled(Merge(groups, Piece("user", blocks)))
  {
    var piece := Piece("user", blocks);
    MergeShape(groups, piece);
    FrontStays(groups, piece);
    LastUserOk(groups, piece);
    hide UseIds, Merge, Alternating, IsResult, UserOk;
  }

  lemma {:induction false} LastUserOk(groups: seq<Piece>, piece: Piece)
    requires Settled(groups) && piece.role == "user"
    requires forall i | 0 <= i < |piece.blocks| :: !IsResult(piece.blocks[i])
    ensures Merge(groups, piece) != [] && UserOk(Merge(groups, piece), |Merge(groups, piece)| - 1)
  {
    MergeShape(groups, piece);
    hide UseIds, Merge, Alternating, IsResult;
    if Joins(groups, piece) {
      assert UserOk(groups, |groups| - 1);
    }
  }

  lemma {:induction false} AssistantStep(groups: seq<Piece>, blocks: seq<Json>)
    requires Settled(groups)
    ensures Pending(Merge(groups, Piece("assistant", blocks)), UseIds(blocks), 0)
  {
    var piece := Piece("assistant", blocks);
    MergeShape(groups, piece);
    FrontStays(groups, piece);
    if Joins(groups, piece) { UseIdsAppend(groups[|groups| - 1].blocks, blocks); }
    hide UseIds, Merge, Alternating, Answered, UserOk;
    assert [] + UseIds(blocks) == UseIds(blocks);
  }

  lemma {:induction false} ResultStep(groups: seq<Piece>, ids: seq<string>, k: nat, block: Json)
    requires Pending(groups, ids, k) && k < |ids|
    requires IsResult(block) && StringField(block, "tool_use_id") == ids[k]
    ensures Pending(Merge(groups, Piece("user", [block])), ids, k + 1)
  {
    var piece := Piece("user", [block]);
    var n := |groups| - 1;
    var answered := if k == 0 then [] else groups[n].blocks;
    assert k == |answered| && Answered(answered, ids[..k]) && (Joins(groups, piece) <==> k > 0) by {
      hide UseIds, Alternating, UserOk;
      assert ids[..0] == [];
    }
    if k == 0 { AssistantOk(groups, n); }
    AnsweredNext(answered, ids, block);
    MergeShape(groups, piece);
    FrontStays(groups, piece);
    hide UseIds, Merge, Alternating, IsResult, UserOk, Answered;
    assert [] + [block] == [block];
  }

  lemma {:induction false} AnsweredNext(blocks: seq<Json>, ids: seq<string>, block: Json)
    requires |blocks| < |ids| && Answered(blocks, ids[..|blocks|])
    requires IsResult(block) && StringField(block, "tool_use_id") == ids[|blocks|]
    ensures Answered(blocks + [block], ids[..|blocks| + 1])
  {
    hide IsResult;
  }

  lemma {:induction false} AssistantOk(groups: seq<Piece>, t: nat)
    requires t < |groups| && groups[t].role == "assistant"
    ensures UserOk(groups, t)
  {
  }

  lemma {:induction false} AllAnswered(groups: seq<Piece>, ids: seq<string>)
    requires Pending(groups, ids, |ids|)
    ensures Settled(groups)
  {
    hide UseIds;
    var n := |groups| - 1;
    assert ids[..|ids|] == ids;
    forall t | 0 <= t < |groups| ensures UserOk(groups, t) {
      if t < n { assert UserOk(groups, t); }
    }
  }

  /** One tool message, rendered. */
  lemma {:induction false} ResultRendered(groups: seq<Piece>, ids: seq<string>, k: nat, history: seq<Message>)
    returns (after: seq<Piece>)
    requires Pending(groups, ids, k) && k < |ids|
    requires history != [] && history[0].role.ToolRole? && history[0].callId == ids[k]
    requires Rendered(Turned(FIELD, groups), history).Ok?
    ensures Pending(after, ids, k + 1)
    ensures Rendered(Turned(FIELD, groups), history) == Rendered(Turned(FIELD, after), history[1..])
  {
    hide Pending, PieceOf, Turned, Appended, Rendered, IsResult, Merge;
    RenderedFirst(Turned(FIELD, groups), history);
    var block := ResultPiece(history[0]);
    AppendedIsMerge(FIELD, groups, Piece("user", [block]));
    ResultStep(groups, ids, k, block);
    after := Merge(groups, Piece("user", [block]));
  }

  /** The tool messages of one round, rendered one after the other. */
  lemma {:induction false} ResultsRendered(groups: seq<Piece>, ids: seq<string>, k: nat,
                                           tools: seq<Message>, rest: seq<Message>)
    returns (after: seq<Piece>)
    requires Pending(groups, ids, k) && k + |tools| == |ids|
    requires forall i | 0 <= i < |tools| :: tools[i].role.ToolRole? && tools[i].callId == ids[k + i]
    requires Rendered(Turned(FIELD, groups), tools + rest).Ok?
    ensures Settled(after)
    ensures Rendered(Turned(FIELD, groups), tools + rest) == Rendered(Turned(FIELD, after), rest)
    decreases |tools|
  {
    hide Pending, Turned, Rendered, Settled;
    if tools == [] {
      AllAnswered(groups, ids);
      after := groups;
      assert tools + rest == rest;
    } else {
      assert (tools + rest)[0] == tools[0] && (tools + rest)[1..] == tools[1..] + rest;
      var next := ResultRendered(groups, ids, k, tools + rest);
      after := ResultsRendered(next, ids, k + 1, tools[1..], rest);
    }
  }

  lemma {:induction false} ResultPiece(message: Message) returns (block: Json)
    requires message.role.ToolRole? && PieceOf(message).Ok?
    ensures PieceOf(message) == Ok(Some(Piece("user", [block])))
    ensures IsResult(block) && StringField(block, "tool_use_id") == message.callId
  {
    hide PartsOf;
    block := ToolResult(message, PartsOf(message.contents).value);
  }

  lemma {:induction false} UserPiece(message: Message) returns (blocks: seq<Json>)
    requires message.role.UserRole? && Plain(message) && PieceOf(message).Ok?
    ensures PieceOf(message) == Ok(Some(Piece("user", blocks)))
    ensures forall i | 0 <= i < |blocks| :: !IsResult(blocks[i])
  {
    hide PartsOf, IsResult;
    blocks := PartsOf(message.contents).value;
  }

  lemma {:induction false} RenderedFirst(turns: seq<Json>, history: seq<Message>)
    requires history != [] && Rendered(turns, history).Ok?
    ensures PieceOf(history[0]).Ok?
    ensures PieceOf(history[0]).value.Some? ==>
              Rendered(turns, history)
              == Rendered(Appended(turns, FIELD, PieceOf(history[0]).value.value), history[1..])
  {
    hide PieceOf, Appended;
  }

  /** A user message that is not plain has a result among its blocks. */
  lemma {:induction false} SmugglingPiece(message: Message) returns (blocks: seq<Json>, i: nat)
    requires message.role.UserRole? && !Plain(message)
    ensures PieceOf(message) == Ok(Some(Piece("user", blocks)))
    ensures i < |blocks| && IsResult(blocks[i])
  {
    hide PartsOf, IsResult;
    blocks := PartsOf(message.contents).value;
    i :| i < |blocks| && IsResult(blocks[i]);
  }

  lemma {:induction false} UserRendered(groups: seq<Piece>, history: seq<Message>) returns (after: seq<Piece>)
    requires Settled(groups) && history != [] && history[0].role.UserRole? && Plain(history[0])
    requires Rendered(Turned(FIELD, groups), history).Ok?
    ensures Settled(after)
    ensures Rendered(Turned(FIELD, groups), history) == Rendered(Turned(FIELD, after), history[1..])
  {
    hide Settled, PieceOf, Turned, Appended, Rendered, Plain, Merge;
    RenderedFirst(Turned(FIELD, groups), history);
    var blocks := UserPiece(history[0]);
    AppendedIsMerge(FIELD, groups, Piece("user", blocks));
    UserStep(groups, blocks);
    after := Merge(groups, Piece("user", blocks));
  }

  lemma {:induction false} RoundRendered(groups: seq<Piece>, assistant: Message, tools: seq<Message>,
                                         rest: seq<Message>, dump: Json -> string)
    returns (after: seq<Piece>)
    requires Settled(groups) && assistant.role.AssistantRole? && FromResponse(assistant, dump)
    requires Answers(assistant.calls, tools)
    requires Rendered(Turned(FIELD, groups), [assistant] + (tools + rest)).Ok?
    ensures Settled(after)
    ensures Rendered(Turned(FIELD, groups), [assistant] + (tools + rest)) == Rendered(Turned(FIELD, after), rest)
  {
    hide Settled, Pending, PieceOf, Turned, Appended, Rendered, FromResponse, UseIds, Merge;
    RenderedFirst(Turned(FIELD, groups), [assistant] + (tools + rest));
    assert ([assistant] + (tools + rest))[1..] == tools + rest;
    var blocks := AssistantBlocks(assistant, dump);
    AppendedIsMerge(FIELD, groups, Piece("assistant", blocks));
    AssistantStep(groups, blocks);
    var asked := Merge(groups, Piece("assistant", blocks));
    assert forall i | 0 <= i < |tools| :: tools[i].callId == assistant.calls[i].id == CallIds(assistant.calls)[i];
    after := ResultsRendered(asked, CallIds(assistant.calls), 0, tools, rest);
  }

  /** From settled turns, a complete and properly sourced transcript leads to settled turns. */
  lemma {:induction false} CompleteRendered(groups: seq<Piece>, history: seq<Message>, dump: Json -> string)
    returns (after: seq<Piece>)
    requires Settled(groups) && Complete(history) && Sourced(history, dump) && AllPlain(history)
    requires Rendered(Turned(FIELD, groups), history).Ok?
    ensures Settled(after) && Rendered(Turned(FIELD, groups), history) == Ok(Turned(FIELD, after))
    decreases |history|
  {
    if history == [] {
      after := groups;
    } else {
      hide Settled, Turned, Rendered, Complete, Sourced, Plain;
      var tools, rest := FirstRound(history, dump);
      PlainBehind(history, [history[0]] + tools, rest);
      var next;
      if history[0].role.UserRole? {
        next := UserRendered(groups, history);
      } else {
        next := RoundRendered(groups, history[0], tools, rest, dump);
      }
      after := CompleteRendered(next, rest, dump);
    }
  }

  /** The first user message, or the first assistant message with its results, and what follows. */
  lemma {:induction false} FirstRound(history: seq<Message>, dump: Json -> string)
    returns (tools: seq<Message>, rest: seq<Message>)
    requires history != [] && Complete(history) && Sourced(history, dump)
    ensures history == [history[0]] + (tools + rest) && Complete(rest) && Sourced(rest, dump)
    ensures history[0].role.UserRole? ==> tools == [] && rest == history[1..]
    ensures !history[0].role.UserRole? ==>
              history[0].role.AssistantRole? && Answers(history[0].calls, tools) && FromResponse(history[0], dump)
  {
    hide FromResponse;
    var n := if history[0].role.UserRole? then 0 else |history[0].calls|;
    tools, rest := history[1..1 + n], history[1 + n..];
    SourcedBehind(history, 1 + n, dump);
  }

  lemma {:induction false} SourcedBehind(history: seq<Message>, n: nat, dump: Json -> string)
    requires Sourced(history, dump) && n <= |history|
    ensures Sourced(history[n..], dump)
  {
    hide Sound;
  }

  /** Only user messages of the first round, if it has one, and of the rest can fail to be plain. */
  lemma {:induction false} PlainBehind(history: seq<Message>, first: seq<Message>, rest: seq<Message>)
    requires history == first + rest && first != []
    requires forall i | 0 < i < |first| :: first[i].role.ToolRole?
    ensures AllPlain(history) <==> (first[0].role.UserRole? ==> Plain(first[0])) && AllPlain(rest)
  {
    hide Plain;
    if AllPlain(history) {
      forall i | 0 <= i < |rest| && rest[i].role.UserRole? ensures Plain(rest[i]) {
        assert history[|first| + i] == rest[i];
      }
      assert history[0] == first[0];
    }
    if AllPlain(rest) && (first[0].role.UserRole? ==> Plain(first[0])) {
      forall i | 0 <= i < |history| && history[i].role.UserRole? ensures Plain(history[i]) {
        if i >= |first| { assert history[i] == rest[i - |first|]; } else { assert history[i] == first[i]; }
      }
    }
  }

  // ---- a smuggled result is never forgotten ----

  /** Block `i` of the user group `t` is a result that answers nothing. */
  predicate Stray(groups: seq<Piece>, t: nat, i: nat)
  {
    t < |groups| && groups[t].role == "user" && i < |groups[t].blocks| && IsResult(groups[t].blocks[i])
    && i >= if t == 0 then 0 else |UseIds(groups[t - 1].blocks)|
  }

  ghost predicate Smuggled(groups: seq<Piece>)
  {
    exists t: nat, i: nat :: Stray(groups, t, i)
  }

  lemma {:induction false} SmuggledKept(groups: seq<Piece>, piece: Piece)
    requires Smuggled(groups)
    ensures Smuggled(Merge(groups, piece))
  {
    hide UseIds, IsResult;
    var t: nat, i: nat :| Stray(groups, t, i);
    assert Stray(Merge(groups, piece), t, i);
  }

  /** Behind settled groups a result of the user's own answers nothing. */
  lemma {:induction false} SmugglingStep(groups: seq<Piece>, blocks: seq<Json>, i: nat)
    requires Settled(groups) && i < |blocks| && IsResult(blocks[i])
    ensures Smuggled(Merge(groups, Piece("user", blocks)))
  {
    var piece := Piece("user", blocks);
    var n := |groups| - 1;
    MergeShape(groups, piece);
    hide UseIds, IsResult, Merge, Alternating;
    if Joins(groups, piece) {
      assert UserOk(groups, n);
      hide Settled;
      assert Stray(Merge(groups, piece), n, |groups[n].blocks| + i);
    } else {
      assert groups != [] ==> Known(groups[n].role);
      assert Stray(Merge(groups, piece), n + 1, i);
    }
  }

  lemma {:induction false} SmuggledRendered(groups: seq<Piece>, history: seq<Message>) returns (after: seq<Piece>)
    requires Smuggled(groups) && Rendered(Turned(FIELD, groups), history).Ok?
    ensures Smuggled(after) && Rendered(Turned(FIELD, groups), history) == Ok(Turned(FIELD, after))
    decreases |history|
  {
    if history == [] {
      after := groups;
    } else {
      hide Smuggled, PieceOf, Turned, Appended, Merge;
      var piece := PieceOf(history[0]).value;
      var next := groups;
      if piece.Some? {
        AppendedIsMerge(FIELD, groups, piece.value);
        SmuggledKept(groups, piece.value);
        next := Merge(groups, piece.value);
      }
      after := SmuggledRendered(next, history[1..]);
    }
  }

  lemma {:induction false} SmuggledOnWire(groups: seq<Piece>)
    requires Smuggled(groups)
    ensures !WirePaired(Turned(FIELD, groups))
  {
    hide UseIds, IsResult;
    var t: nat, i: nat :| Stray(groups, t, i);
    var turns := Turned(FIELD, groups);
    ReadTurn(groups[t]);
    assert turns[t] == Turn(FIELD, groups[t]);
    if t > 0 {
      ReadTurn(groups[t - 1]);
      assert turns[t - 1] == Turn(FIELD, groups[t - 1]);
    }
    if WirePaired(turns) {
      PairedAt(turns, t);
    }
  }

  lemma {:induction false} PairedAt(turns: seq<Json>, t: nat)
    requires WirePaired(turns) && t < |turns| && Role(turns[t]) == "user"
    ensures WellTyped(turns[t]) && (t > 0 ==> WellTyped(turns[t - 1]))
    ensures Answered(Blocks(turns[t]), if t == 0 then [] else UseIds(Blocks(turns[t - 1])))
  {
    hide UseIds, Answered;
    assert UserTurnOk(turns, t);
  }

  lemma {:induction false} ReadTurn(group: Piece)
    ensures WellTyped(Turn(FIELD, group)) <==> Known(group.role)
    ensures Known(group.role) ==> Role(Turn(FIELD, group)) == group.role && Blocks(Turn(FIELD, group)) == group.blocks
  {
  }

  /** From settled turns, a transcript in which some user message is not plain leads to a
      stray result. */
  lemma {:induction false} SmugglingRendered(groups: seq<Piece>, history: seq<Message>, dump: Json -> string)
    returns (after: seq<Piece>)
    requires Settled(groups) && Complete(history) && Sourced(history, dump) && !AllPlain(history)
    requires Rendered(Turned(FIELD, groups), history).Ok?
    ensures Smuggled(after) && Rendered(Turned(FIELD, groups), history) == Ok(Turned(FIELD, after))
    decreases |history|
  {
    hide Settled, Smuggled, Turned, Rendered, Complete, Sourced, Plain;
    assert history != [];
    var tools, rest := FirstRound(history, dump);
    PlainBehind(history, [history[0]] + tools, rest);
    if !history[0].role.UserRole? {
      var next := RoundRendered(groups, history[0], tools, rest, dump);
      after := SmugglingRendered(next, rest, dump);
    } else if Plain(history[0]) {
      var next := UserRendered(groups, history);
      after := SmugglingRendered(next, rest, dump);
    } else {
      after := FirstSmuggling(groups, history);
    }
  }

  lemma {:induction false} FirstSmuggling(groups: seq<Piece>, history: seq<Message>) returns (after: seq<Piece>)
    requires Settled(groups) && history != [] && history[0].role.UserRole? && !Plain(history[0])
    requires Rendered(Turned(FIELD, groups), history).Ok?
    ensures Smuggled(after) && Rendered(Turned(FIELD, groups), history) == Ok(Turned(FIELD, after))
  {
    hide Settled, Smuggled, PieceOf, Turned, Appended, Rendered, Plain, Merge;
    RenderedFirst(Turned(FIELD, groups), history);
    var blocks, i := SmugglingPiece(history[0]);
    AppendedIsMerge(FIELD, groups, Piece("user", blocks));
    SmugglingStep(groups, blocks, i);
    after := SmuggledRendered(Merge(groups, Piece("user", blocks)), history[1..]);
  }

  lemma {:induction false} AssistantBlocks(message: Message, dump: Json -> string) returns (blocks: seq<Json>)
    requires message.role.AssistantRole? && FromResponse(message, dump)
    ensures PieceOf(message) == Ok(Some(Piece("assistant", blocks)))
    ensures UseIds(blocks) == CallIds(message.calls)
  {
    var body :| ParsedResponse(body, dump).Ok? && ParsedResponse(body, dump).value.message == message;
    ReplayIsFaithful(body, dump);
    blocks := Find(body, "content").value.items;
  }

  lemma {:induction false} SettledOnWire(groups: seq<Piece>)
    requires Settled(groups)
    ensures WirePaired(Turned(FIELD, groups))
  {
    hide UseIds, Answered;
    var turns := Turned(FIELD, groups);
    forall t | 0 <= t < |turns|
      ensures WellTyped(turns[t]) && Role(turns[t]) == groups[t].role && Blocks(turns[t]) == groups[t].blocks
    {
      assert turns[t] == Turn(FIELD, groups[t]);
      ReadTurn(groups[t]);
    }
    hide Turned;
    forall t | 0 <= t < |turns| && Role(turns[t]) == "assistant" && UseIds(Blocks(turns[t])) != []
      ensures t + 1 < |turns| && Answered(Blocks(turns[t + 1]), UseIds(Blocks(turns[t])))
    {
      assert t + 1 < |groups| ==> UserOk(groups, t + 1);
    }
    forall t: nat | t < |turns| ensures UserTurnOk(turns, t) {
      assert UserOk(groups, t);
    }
  }

  /** A complete transcript whose assistant messages come from responses, if it can be
      rendered at all, is rendered with alternating roles and paired tool blocks exactly when
      no user message carries a tool result of its own. */
  lemma {:induction false} TranscriptPaired(history: seq<Message>, dump: Json -> string)
    requires Complete(history) && Sourced(history, dump) && Rendered([], history).Ok?
    ensures WirePaired(Rendered([], history).value) <==> AllPlain(history)
  {
    hide WirePaired, AllPlain, Rendered;
    assert Turned(FIELD, []) == [];
    if AllPlain(history) {
      var after := CompleteRendered([], history, dump);
      SettledOnWire(after);
    } else {
      var after := SmugglingRendered([], history, dump);
      SmuggledOnWire(after);
    }
  }

  // ---- composed with the generation loop ----

  /** End to end: on a session on which only generations have run, failed ones included, each
      answered by what the adapter reads from responses, every request of every run that can
      be rendered is properly paired, exactly as long as no user message in it carries a tool
      result of its own. */
  lemma {:induction false} RequestPaired(runs: seq<Sessions.SessionRun>, r: nat, request: seq<Message>,
                                         dump: Json -> string)
    requires forall i | 0 <= i < |runs| :: Sessions.RunOk(runs[i], m => Sound(m, dump))
    requires Sessions.AskedWith(runs, r, request) && Rendered([], request).Ok?
    ensures WirePaired(Rendered([], request).value) <==> AllPlain(request)
  {
    ghost var good := m => Sound(m, dump);
    hide Rendered, WirePaired, FromResponse, AllPlain, Sessions.AskedWith, Sessions.RunOk;
    Sessions.RequestIsGood(runs, r, request, good);
    TranscriptPaired(request, dump);
  }

  /** And so is the history they leave behind. */
  lemma {:induction false} HistoryPaired(runs: seq<Sessions.SessionRun>, dump: Json -> string)
    requires forall i | 0 <= i < |runs| :: Sessions.RunOk(runs[i], m => Sound(m, dump))
    ensures forall i | 0 <= i < |runs| :: runs[i].config.maxRounds >= 1
    ensures var history := Sessions.HistoryAfter(runs);
            Rendered([], history).Ok? ==> (WirePaired(Rendered([], history).value) <==> AllPlain(history))
  {
    ghost var good := m => Sound(m, dump);
    hide Rendered, WirePaired, FromResponse, AllPlain, Sessions.HistoryAfter, Sessions.RunOk;
    Sessions.SessionKeepsGood(runs, good);
    if Rendered([], Sessions.HistoryAfter(runs)).Ok? { TranscriptPaired(Sessions.HistoryAfter(runs), dump); }
  }

  /** A user message the client lets pass, and with which a request is not paired: a provider
      extension that is a tool result. */
  lemma {:induction false} SmuggledResult(options: Client.GenerateOptions)
    requires Client.ValidInput(Client.Capabilities(true, false, false, false, "anthropic"),
                               Message(UserRole, [Text("x")], [], "", "", false, Null), options)
    ensures var block := Obj(map["type" := Str("tool_result"), "tool_use_id" := Str("t")]);
            var input := Message(UserRole, [Extension("anthropic", block)], [], "", "", false, Null);
            && Client.ValidInput(Client.Capabilities(true, false, false, false, "anthropic"), input, options)
            && Complete([input]) && Rendered([], [input]).Ok? && !WirePaired(Rendered([], [input]).value)
  {
    var block := Obj(map["type" := Str("tool_result"), "tool_use_id" := Str("t")]);
    var input := Message(UserRole, [Extension("anthropic", block)], [], "", "", false, Null);
    assert [input][1..] == [];
    RenderedExactly([], [input]);
    AllExact(input.contents, PartOf);
    var parts := PartsOf(input.contents).value;
    assert PartOf(input.contents[0]) == Ok(parts[0]);
    assert IsResult(parts[0]) && !Plain(input);
    assert !AllPlain([input]) by { assert [input][0] == input; }
    hide PartsOf, PartOf, All, Plain, AllPlain, IsResult;
    TranscriptPaired([input], v => "");
  }
}
