/** Calls and answers on a wire, for the formats that match them item by item. */
module Dialogue {
  import opened Json
  import opened Types
  import opened Transcript
  import opened Wire

  /** What an answer is matched by. A format that does not send one of the two leaves it
      empty. */
  datatype Key = Key(name: string, id: string)

  /** What an item on the wire amounts to. `Astray` is a call where none can be answered. */
  datatype Mark = Ask(keys: seq<Key>) | Reply(key: Key) | UserTurn | Other | Astray

  // ---- the items of one message ----

  /** The calls still to be answered after one more item. */
  function Next(pending: seq<Key>, mark: Mark): (after: Option<seq<Key>>)
  {
    match mark
    case Ask(keys) => Some(pending + keys)
    case Reply(key) => if pending != [] && pending[0] == key then Some(pending[1..]) else None
    case UserTurn => if pending == [] then Some([]) else None
    case Other => Some(pending)
    case Astray => None
  }

  function Unanswered(pending: seq<Key>, marks: seq<Mark>): (after: Option<seq<Key>>)
    decreases |marks|
  {
    if marks == [] then Some(pending)
    else
      match Next(pending, marks[0])
      case None => None
      case Some(after) => Unanswered(after, marks[1..])
  }

  // ---- message after message ----

  /** While calls are open a message is the answer to the first of them and nothing else: no
      later message of the model and no word of the user lies between calls and answers. */
  function NextMessage(pending: seq<Key>, marks: seq<Mark>): (after: Option<seq<Key>>)
  {
    if pending == [] then Unanswered([], marks)
    else if marks == [Reply(pending[0])] then Some(pending[1..])
    else None
  }

  function Open(pending: seq<Key>, messages: seq<seq<Mark>>): (after: Option<seq<Key>>)
    decreases |messages|
  {
    if messages == [] then Some(pending)
    else
      match NextMessage(pending, messages[0])
      case None => None
      case Some(after) => Open(after, messages[1..])
  }

  /** The calls of each message are answered exactly once, in order, by the messages directly
      behind it. */
  predicate Paired(messages: seq<seq<Mark>>)
  {
    Open([], messages) == Some([])
  }

  // ---- what a message may put on the wire ----

  /** The key a call with this id, name and native form is answered by. */
  type Keyed = (string, string, Json) -> Key

  function CallKeys(calls: seq<ToolCall>, keyed: Keyed): (keys: seq<Key>)
    ensures |keys| == |calls|
  {
    seq(|calls|, i requires 0 <= i < |calls| => keyed(calls[i].id, calls[i].name, calls[i].metadata))
  }

  /** The calls the client will answer behind a message. */
  function Expected(message: Message, keyed: Keyed): (keys: seq<Key>)
  {
    if message.role.AssistantRole? then CallKeys(message.calls, keyed) else []
  }

  /** The tight condition on a message: taken alone, it leaves exactly the calls open that the
      client will answer. */
  ghost predicate Leaves(message: Message, marks: seq<Mark>, keyed: Keyed)
  {
    Unanswered([], marks) == Some(Expected(message, keyed))
  }

  /** What is known of messages in any case: a tool message is one answer, and no other
      message leaves more open than will be answered. */
  ghost predicate Modest(message: Message, marks: seq<Mark>, keyed: Keyed)
  {
    if message.role.ToolRole? then marks == [Reply(keyed(message.callId, message.toolName, message.metadata))]
    else Unanswered([], marks).Some? ==> |Unanswered([], marks).value| <= |Expected(message, keyed)|
  }

  function AskedKeys(marks: seq<Mark>): (keys: seq<Key>)
  {
    if marks == [] then []
    else (if marks[0].Ask? then marks[0].keys else []) + AskedKeys(marks[1..])
  }

  lemma {:induction false} AskedKeysAppend(front: seq<Mark>, back: seq<Mark>)
    ensures AskedKeys(front + back) == AskedKeys(front) + AskedKeys(back)
  {
    if front == [] {
      assert front + back == back;
    } else {
      assert (front + back)[1..] == front[1..] + back;
      AskedKeysAppend(front[1..], back);
    }
  }

  lemma {:induction false} AskedByOne(mark: Mark)
    ensures AskedKeys([mark]) == if mark.Ask? then mark.keys else []
  {
    assert [mark][1..] == [];
  }

  /** No more is left open than was asked for. */
  lemma {:induction false} UnansweredBound(pending: seq<Key>, marks: seq<Mark>)
    ensures Unanswered(pending, marks).Some? ==>
              |Unanswered(pending, marks).value| <= |pending| + |AskedKeys(marks)|
    decreases |marks|
  {
    if marks != [] && Next(pending, marks[0]).Some? {
      UnansweredBound(Next(pending, marks[0]).value, marks[1..]);
    }
  }

  /** Items without answers or astray calls, and without a user's turn behind a call. `asked`
      says whether there was a call before. */
  predicate Orderly(asked: bool, marks: seq<Mark>)
    decreases |marks|
  {
    if marks == [] then true
    else
      match marks[0]
      case Ask(keys) => Orderly(asked || keys != [], marks[1..])
      case UserTurn => !asked && Orderly(asked, marks[1..])
      case Other => Orderly(asked, marks[1..])
      case _ => false
  }

  /** Exactly the orderly items leave open all they ask for. */
  lemma {:induction false} OrderlyExactly(pending: seq<Key>, marks: seq<Mark>)
    ensures Unanswered(pending, marks) == Some(pending + AskedKeys(marks)) <==> Orderly(pending != [], marks)
    decreases |marks|
  {
    if marks == [] {
      assert pending + [] == pending;
    } else {
      var keys := if marks[0].Ask? then marks[0].keys else [];
      var rest := AskedKeys(marks[1..]);
      assert AskedKeys(marks) == keys + rest && (pending + keys) + rest == pending + (keys + rest);
      assert pending + [] == pending;
      var next := Next(pending, marks[0]);
      if next.Some? {
        OrderlyExactly(next.value, marks[1..]);
        UnansweredBound(next.value, marks[1..]);
      }
      hide Unanswered, AskedKeys;
    }
  }

  /** A message whose items ask for exactly what the client will answer, if none is astray,
      meets the tight condition exactly when they are orderly. */
  lemma {:induction false} LeavesExactly(message: Message, marks: seq<Mark>, keyed: Keyed)
    requires AskedKeys(marks) == Expected(message, keyed) || exists i | 0 <= i < |marks| :: marks[i].Astray?
    ensures Leaves(message, marks, keyed) <==> Orderly(false, marks)
  {
    OrderlyExactly([], marks);
    assert [] + AskedKeys(marks) == AskedKeys(marks);
    if i :| 0 <= i < |marks| && marks[i].Astray? { AstrayFails([], false, marks, i); }
  }

  lemma {:induction false} AstrayFails(pending: seq<Key>, asked: bool, marks: seq<Mark>, i: nat)
    requires i < |marks| && marks[i].Astray?
    ensures Unanswered(pending, marks) == None && !Orderly(asked, marks)
    decreases |marks|
  {
    if i > 0 {
      assert marks[1..][i - 1] == marks[i];
      AstrayFails(if Next(pending, marks[0]).Some? then Next(pending, marks[0]).value else [],
                  asked || (marks[0].Ask? && marks[0].keys != []), marks[1..], i - 1);
    }
  }

  lemma {:induction false} AnswerIsNotOrderly(asked: bool, marks: seq<Mark>, i: nat)
    requires i < |marks| && marks[i].Reply?
    ensures !Orderly(asked, marks)
    decreases |marks|
  {
    if i > 0 {
      assert marks[1..][i - 1] == marks[i];
      AnswerIsNotOrderly(asked || (marks[0].Ask? && marks[0].keys != []), marks[1..], i - 1);
    }
  }

  // ---- a whole history ----

  /** What each of some items amounts to, or each of some messages. */
  function Marks<T, M>(items: seq<T>, mark: T -> M): (marks: seq<M>)
    ensures |marks| == |items|
  {
    seq(|items|, i requires 0 <= i < |items| => mark(items[i]))
  }

  ghost predicate AllModest(history: seq<Message>, marked: Message -> seq<Mark>, keyed: Keyed)
  {
    forall i | 0 <= i < |history| :: Modest(history[i], marked(history[i]), keyed)
  }

  ghost predicate AllLeave(history: seq<Message>, marked: Message -> seq<Mark>, keyed: Keyed)
  {
    forall i | 0 <= i < |history| && !history[i].role.ToolRole? :: Leaves(history[i], marked(history[i]), keyed)
  }

  predicate Replies(messages: seq<seq<Mark>>, keys: seq<Key>)
  {
    |messages| == |keys| && forall i | 0 <= i < |keys| :: messages[i] == [Reply(keys[i])]
  }

  /** The answers a client gives close exactly the calls they are for. */
  lemma {:induction false} RepliesClose(keys: seq<Key>, replies: seq<seq<Mark>>, rest: seq<seq<Mark>>)
    requires Replies(replies, keys)
    ensures Open(keys, replies + rest) == Open([], rest)
    decreases |keys|
  {
    if keys == [] {
      assert replies + rest == rest;
    } else {
      assert (replies + rest)[1..] == replies[1..] + rest;
      RepliesClose(keys[1..], replies[1..], rest);
    }
  }

  /** And they do not fit any other calls, if these are not more. */
  lemma {:induction false} RepliesMisfit(pending: seq<Key>, keys: seq<Key>, replies: seq<seq<Mark>>,
                                         rest: seq<seq<Mark>>)
    requires Replies(replies, keys) && |pending| <= |keys| && pending != keys
    ensures Open(pending, replies + rest) == None
    decreases |keys|
  {
    assert (replies + rest)[0] == replies[0] && (replies + rest)[1..] == replies[1..] + rest;
    if pending != [] && pending[0] == keys[0] {
      assert pending == [pending[0]] + pending[1..] && keys == [keys[0]] + keys[1..];
      RepliesMisfit(pending[1..], keys[1..], replies[1..], rest);
    }
  }

  lemma {:induction false} AnswersReply(calls: seq<ToolCall>, tools: seq<Message>, marked: Message -> seq<Mark>,
                                        keyed: Keyed)
    requires Answers(calls, tools) && AllModest(tools, marked, keyed)
    ensures Replies(Marks(tools, marked), CallKeys(calls, keyed))
  {
    forall i | 0 <= i < |calls| ensures Marks(tools, marked)[i] == [Reply(CallKeys(calls, keyed)[i])] {
      assert Modest(tools[i], marked(tools[i]), keyed);
    }
  }

  /** One user message, or one model message with its answers: what comes behind is paired
      as if nothing had been before, exactly when the first message leaves what it should. */
  lemma {:induction false} RoundExactly(message: Message, tools: seq<Message>, rest: seq<seq<Mark>>,
                                        marked: Message -> seq<Mark>, keyed: Keyed)
    requires Modest(message, marked(message), keyed) && AllModest(tools, marked, keyed)
    requires if message.role.UserRole? then tools == []
             else message.role.AssistantRole? && Answers(message.calls, tools)
    ensures Open([], [marked(message)] + (Marks(tools, marked) + rest))
            == if Leaves(message, marked(message), keyed) then Open([], rest) else None
  {
    var keys := Expected(message, keyed);
    var replies := Marks(tools, marked);
    if message.role.AssistantRole? { AnswersReply(message.calls, tools, marked, keyed); }
    assert Replies(replies, keys);
    hide Unanswered, Marks, Expected, Answers, AllModest;
    var all := [marked(message)] + (replies + rest);
    assert all[0] == marked(message) && all[1..] == replies + rest;
    var left := Unanswered([], marked(message));
    if left.Some? {
      if left.value == keys {
        RepliesClose(keys, replies, rest);
      } else {
        RepliesMisfit(left.value, keys, replies, rest);
      }
    }
  }

  lemma {:induction false} FirstOfHistory(history: seq<Message>, n: nat, marked: Message -> seq<Mark>, keyed: Keyed)
    requires 1 + n <= |history| && AllModest(history, marked, keyed)
    requires forall i | 1 <= i < 1 + n :: history[i].role.ToolRole?
    ensures var tools, rest := history[1..1 + n], history[1 + n..];
            && Marks(history, marked)
               == [marked(history[0])] + (Marks(tools, marked) + Marks(rest, marked))
            && AllModest(tools, marked, keyed) && AllModest(rest, marked, keyed)
            && Modest(history[0], marked(history[0]), keyed)
            && (AllLeave(history, marked, keyed) <==>
                  (history[0].role.ToolRole? || Leaves(history[0], marked(history[0]), keyed))
                  && AllLeave(rest, marked, keyed))
  {
    hide Modest, Leaves;
    var rest := history[1 + n..];
    forall i | 0 <= i < |rest| ensures rest[i] == history[1 + n + i] {}
    if AllLeave(rest, marked, keyed) && (history[0].role.ToolRole? || Leaves(history[0], marked(history[0]), keyed)) {
      forall i | 0 <= i < |history| && !history[i].role.ToolRole?
        ensures Leaves(history[i], marked(history[i]), keyed)
      {
        if i > 0 { assert history[i] == rest[i - 1 - n]; }
      }
    }
  }

  /** A complete history is sent with every call paired exactly when each message of the
      model and the user, taken alone, leaves open exactly what the client answers. */
  lemma {:induction false} PairedExactly(history: seq<Message>, marked: Message -> seq<Mark>, keyed: Keyed)
    requires Complete(history) && AllModest(history, marked, keyed)
    ensures Paired(Marks(history, marked)) <==> AllLeave(history, marked, keyed)
  {
    if history == [] {
      assert Marks(history, marked) == [];
    } else {
      hide Marks, Modest, Leaves, AllModest, AllLeave, Answers, Open, Complete;
      var n := CompleteFirst(history);
      var tools, rest := history[1..1 + n], history[1 + n..];
      FirstOfHistory(history, n, marked, keyed);
      PairedExactly(rest, marked, keyed);
      RoundExactly(history[0], tools, Marks(rest, marked), marked, keyed);
    }
  }

  // ---- a wire built message by message ----

  lemma {:induction false} MarksAppend<T>(front: seq<T>, back: seq<T>, mark: T -> Mark)
    ensures Marks(front + back, mark) == Marks(front, mark) + Marks(back, mark)
  {
  }

  function Flattened<T>(messages: seq<seq<T>>): (items: seq<T>)
  {
    if messages == [] then []
    else Flattened(messages[..|messages| - 1]) + messages[|messages| - 1]
  }

  /** The items of all messages, in order; the first message that has no wire form fails it. */
  function Collected<T>(history: seq<Message>, render: Message -> Result<seq<T>, Failure>)
    : (items: Result<seq<T>, Failure>)
  {
    match All(history, render)
    case Err(e) => Err(e)
    case Ok(messages) => Ok(Flattened(messages))
  }

  /** A request can be built exactly when each of its messages has a wire form. */
  lemma {:induction false} CollectedExact<T>(history: seq<Message>, render: Message -> Result<seq<T>, Failure>)
    ensures Collected(history, render).Ok? <==> forall i | 0 <= i < |history| :: render(history[i]).Ok?
  {
    AllExact(history, render);
  }

  lemma {:induction false} FirstBadMessage<T>(history: seq<Message>, render: Message -> Result<seq<T>, Failure>,
                                              n: nat, e: Failure)
    requires n <= |history| && Collected(history[..n], render) == Err(e)
    ensures Collected(history, render) == Err(e)
  {
    FirstBad(history, render, n, e);
  }

  function MessageMarks<T>(message: Message, render: Message -> Result<seq<T>, Failure>, mark: T -> Mark)
    : (marks: seq<Mark>)
  {
    if render(message).Ok? then Marks(render(message).value, mark) else []
  }

  /** The marks of what is sent, message by message. */
  function SentMarks<T>(messages: seq<seq<T>>, mark: T -> Mark): (marks: seq<seq<Mark>>)
    ensures |marks| == |messages|
  {
    seq(|messages|, i requires 0 <= i < |messages| => Marks(messages[i], mark))
  }

  ghost predicate AllLeaveSent<T>(history: seq<Message>, render: Message -> Result<seq<T>, Failure>, mark: T -> Mark,
                                  keyed: Keyed)
  {
    forall i | 0 <= i < |history| && !history[i].role.ToolRole? && render(history[i]).Ok? ::
      Leaves(history[i], Marks(render(history[i]).value, mark), keyed)
  }

  /** What is sent for a complete history is the items of its messages one after the other,
      and these are paired exactly when each message of the model and the user leaves open
      exactly what the client answers. */
  lemma {:induction false} CollectedPaired<T>(history: seq<Message>, render: Message -> Result<seq<T>, Failure>,
                                              mark: T -> Mark, keyed: Keyed)
    requires Complete(history) && Collected(history, render).Ok?
    requires forall i | 0 <= i < |history| && render(history[i]).Ok? ::
               Modest(history[i], Marks(render(history[i]).value, mark), keyed)
    ensures All(history, render).Ok? && Collected(history, render).value == Flattened(All(history, render).value)
    ensures Paired(SentMarks(All(history, render).value, mark)) <==> AllLeaveSent(history, render, mark, keyed)
  {
    ghost var marked := m => MessageMarks(m, render, mark);
    var messages := All(history, render).value;
    hide Modest, Leaves, Marks, Complete, Paired;
    assert forall i | 0 <= i < |history| :: render(history[i]) == Ok(messages[i]);
    assert SentMarks(messages, mark) == Marks(history, marked);
    PairedExactly(history, marked, keyed);
    assert AllLeave(history, marked, keyed) <==> AllLeaveSent(history, render, mark, keyed);
  }
}
