/** Conversation histories made of complete rounds. */
module Transcript {
  import opened Types

  /** One tool message per call, in the order of the calls, with their ids and names. */
  predicate Answers(calls: seq<ToolCall>, tools: seq<Message>)
  {
    |tools| == |calls|
    && forall i | 0 <= i < |calls| ::
         && tools[i].role.ToolRole?
         && tools[i].callId == calls[i].id && tools[i].toolName == calls[i].name
         && tools[i].metadata == calls[i].metadata
  }

  /** User messages, and assistant messages each directly followed by the results of
      exactly its calls. */
  predicate Complete(history: seq<Message>)
  {
    if history == [] then true
    else if history[0].role.UserRole? then Complete(history[1..])
    else
      var n := |history[0].calls|;
      && history[0].role.AssistantRole?
      && 1 + n <= |history|
      && Answers(history[0].calls, history[1..1 + n])
      && Complete(history[1 + n..])
  }

  lemma {:induction false} CompleteAppend(front: seq<Message>, back: seq<Message>)
    requires Complete(front) && Complete(back)
    ensures Complete(front + back)
  {
    if front == [] {
      assert front + back == back;
    } else {
      var n := if front[0].role.UserRole? then 0 else |front[0].calls|;
      assert (front + back)[1..1 + n] == front[1..1 + n];
      assert (front + back)[1 + n..] == front[1 + n..] + back;
      CompleteAppend(front[1 + n..], back);
    }
  }

  /** An assistant message, and a short result for each of its calls. */
  function RoundOf(assistant: Message): (round: seq<Message>)
    ensures |round| == 1 + |assistant.calls| && round[0] == assistant
    ensures forall i | 1 <= i < |round| :: round[i].role.ToolRole? && round[i].contents == [Text("x")]
  {
    [assistant] + seq(|assistant.calls|, i requires 0 <= i < |assistant.calls| => ShortResult(assistant.calls[i]))
  }

  function ShortResult(call: ToolCall): (message: Message)
  {
    Message(ToolRole, [Text("x")], [], call.id, call.name, false, call.metadata)
  }

  lemma {:induction false} RoundIsComplete(assistant: Message)
    requires assistant.role.AssistantRole?
    ensures Complete(RoundOf(assistant))
  {
    var tools := RoundOf(assistant)[1..];
    assert forall i | 0 <= i < |tools| :: tools[i] == ShortResult(assistant.calls[i]);
    CompleteRound(assistant, tools);
    assert RoundOf(assistant) == [assistant] + tools;
  }

  lemma {:induction false} CompleteRound(assistant: Message, tools: seq<Message>)
    requires assistant.role.AssistantRole? && Answers(assistant.calls, tools)
    ensures Complete([assistant] + tools)
  {
    var round := [assistant] + tools;
    assert round[1..1 + |tools|] == tools && round[1 + |tools|..] == [];
  }

  /** A complete history begins with a user message, or with an assistant message and its
      results, and is complete behind them. */
  lemma {:induction false} CompleteFirst(history: seq<Message>) returns (n: nat)
    requires Complete(history) && history != []
    ensures 1 + n <= |history| && Complete(history[1 + n..])
    ensures forall i | 1 <= i < 1 + n :: history[i].role.ToolRole?
    ensures if history[0].role.UserRole? then n == 0
            else history[0].role.AssistantRole? && Answers(history[0].calls, history[1..1 + n])
  {
    n := if history[0].role.UserRole? then 0 else |history[0].calls|;
    var tools := history[1..1 + n];
    forall i | 1 <= i < 1 + n ensures history[i].role.ToolRole? { assert tools[i - 1] == history[i]; }
  }

  lemma {:induction false} CompleteHasNoSystem(history: seq<Message>)
    requires Complete(history)
    ensures forall i | 0 <= i < |history| :: !history[i].role.SystemRole?
  {
    if history != [] {
      var n := if history[0].role.UserRole? then 0 else |history[0].calls|;
      CompleteHasNoSystem(history[1 + n..]);
      forall i | 0 <= i < |history| ensures !history[i].role.SystemRole? {
        if 1 <= i < 1 + n {
          assert history[1..1 + n][i - 1].role.ToolRole?;
        } else if i > 0 {
          assert history[1 + n..][i - 1 - n] == history[i];
        }
      }
    }
  }
}
