# A model of the NeuralPlus client, in Dafny

NeuralPlus asks a language model provider, runs the tools the model asks for, and keeps the
conversation in a session. This project models its generation loop, its tool executor, its
session lease, the four provider adapters, credential redaction, the base64 codec and the
schema check for tool arguments, and proves what they promise.

`dafny verify dfyconfig.toml` checks the whole project.

## How the parts fit

- `types.dfy`, `json.dfy`: messages, calls, responses, and JSON as a tree. An object is a
  finite map whose members are visited in the byte order of their names.
- `generation.dfy` states the generation loop as a function of what the provider answers in
  each round and what the tools come to. Both are arbitrary, so a lemma about all oracles is
  a lemma about all runs. `client.dfy` is the loop itself, over a session object, with
  tracers that may throw; its contract ties it to that function.
- `executor.dfy` takes the parallel executor step by step: a thread is launched or cannot
  be, a call is started, enters its tool with the lock, leaves it, ends, is collected. Any
  number of executions, of any clients, are interleaved and share tools. `generation.dfy`
  uses it: a parallel batch is whatever some run of this protocol returns.
- `session.dfy` has the session and its lease as objects; `lease.dfy` takes the same
  operations apart into steps of any number of threads.
- `trace.dfy` is a monitor for the events of one run; `usage.dfy` the token totals;
  `transcript.dfy` says what a complete history is; `tools.dfy` what reaches a tool.
- `turns.dfy` is the merging of messages into turns that two wire formats need.
  `anthropic.dfy`, `gemini.dfy`, `openai.dfy` and `compatible.dfy` are the adapters: reading a
  response, and replaying a history. `wire.dfy` holds what they share.
- `reading.dfy` and `sending.dfy` write out, field by field, which responses the adapters read
  and what they send; `outcomes.dfy` how runs end and what they report, by the provider's
  answers alone.
- `pairing.dfy` and `dialogue.dfy` say exactly when calls and results are paired on the wire;
  `sessions.dfy` carries this through any number of runs on one session, and each adapter
  ends with the result for its format.
- `redaction.dfy`, `redaction_tree.dfy`, `base64.dfy`, `schema.dfy`: the pure algorithms, each
  against a declarative meaning.
- `ids.dfy`, `numerals.dfy`, `made_up_ids.dfy`: run ids, made-up call ids, and where they end up.

What the outside world does comes in as parameters: what the provider answers, what invoking
a tool comes to, which events a tracer throws on, which thread steps next, and how JSON text
is read and printed. A word (`size_t`) is bounded and sums past it are shown impossible or
refused, never wrapped; the run counter, which does wrap in the source, wraps here.
Exceptions are result values.

## Where a promise holds only under a condition

- Redaction: a secret can reappear in the text that replaces secrets. `Redaction.LeakTouches`
  says where, for any list: only where it agrees with a marker it overlaps. So a list in which
  no secret touches the marker is safe for every text and tree, brackets or not
  (`Redaction.UntouchedIsClean`, `RedactionTree.UntouchedTreeIsClean`,
  `Redaction.BracketsCanBeSafe`). Exactly which lists are safe is `Redaction.SafeExactly`, by texts of
  a bounded length, and `Redaction.ExposedExactly`, by the secrets alone. For one text, a secret
  survives exactly in a short part of it (`Redaction.LeakIsLocal`); in closed form, for one
  text or tree, exactly when a secret survives is `Redaction.LeaksExactly` and
  `RedactionTree.TreeLeaksExactly`: there the secrets that touch the marker lie inside it, which
  bracket-free ones always do (`Redaction.BracketFreeIsPredictable`).
  `Redaction.BracketSecretLeaks` is a secret that survives.
- Pairing on the wire: each `RequestPaired` is an equivalence. A request of a session on which only
  generations have run is paired exactly when the user put no tool results of their own in
  it as provider extensions (Anthropic, Gemini) and no function calls either (Gemini), and when
  the responses in it hold no answers, user items or user roles, or marks that undo it (Gemini,
  OpenAI, OpenAI-compatible). The client checks none of this. Transcripts that fail:
  `Pairing.SmuggledResult`, `Gemini.SmuggledPart`, `Gemini.SomeCallUnderUser`,
  `OpenAI.SelfAnswered`, `Compatible.MarkedCallUnpaired`.
- Results of OpenAI-compatible calls: a listed call that itself carries
  `"legacy_function_call": true` is answered without its id
  (`src/providers/openai_compatible.cpp:147-165`). `Compatible.AnsweredByIdExactly` says exactly
  when the id is used.
- Enum values: numbers compare as nlohmann/json 3.12.0 compares them, integers as 64-bit words, signed
  or not, and with a floating number after conversion to one. So the check is exact for just
  the integers that fit (`Schema.EnumOfFloatExactly`, `Schema.EnumOfWordExactly`), and accepts
  some values that are not listed (`Schema.EnumAcceptsUnlisted`).
- Run ids are fresh for the first 2^64 runs (`SyntheticIds.RunIdsRepeatExactly`).

## Model

| member | source | states |
|---|---|---|
| `Generation.EveryRun` | src/client.cpp:395-606 | For arbitrary provider answers and tool outcomes, on every exit, returning or throwing: the history is the old one, the input, and then, for each round carried through and for nothing else, the message of the provider and the result messages of the tools for its calls; request k is what had been said before round k, so the requests grow, and there are at most max_model_rounds; no answer before the last one ended the run, and a returned response is the last answer, which did; calls stay within their limit; the trace is well bracketed; rounds, calls and tokens of a returned response are exact |
| `Outcomes.OutcomeExactly` | src/client.cpp:412-594 | For every run, said of the answers of the provider alone: the answers before the last one were in order and asked for another round; the run fails with just the failure the last answer calls for, one equivalence for each: what the provider threw, a wrong role, calls over the limit, a call without id or name, a repeated id with that id, usage past a word, the limit of rounds; and it returns exactly if that answer is in order and asks for no round beyond the limit |
| `Outcomes.ReportExactly` | src/client.cpp:395-606 | Every run reports just these events: its start; for each round carried through, that it asked, with how many messages, that it was answered, with how many calls, and its tool events; for a round that fails, that it asked, that it was answered if only the limit of rounds stops it, and an error; and otherwise its end |
| `Outcomes.SaidExactly` | src/client.cpp:514-560 | What a round adds to the history, written out: the message of the provider, and for each call, in order, one tool message of its id, name and native form that shows what the call came to (`Tools.ComesTo`) |
| `Outcomes.ToolEndsTell` | src/client.cpp:755-761 | On both paths every tool end event says of some call of the round whether its output is an error |
| `Outcomes.PathExactly` | src/client.cpp:636-648 | Which path a round takes and what it reports there: two calls or more go to the executor if the client runs calls in parallel, and then what a run of it reports; otherwise each call is reported as started and then as ended with the error mark of its output, in order |
| `Generation.HistoryStaysComplete` | src/client.cpp:406-583 | A session whose history has every tool call answered by exactly one tool message, in order, with the same ids and names, is left so by every run, and every request of the run has that form |
| `Generation.RoundKeeps` | src/client.cpp:412-581 | One round, from any state the loop can be in: it either goes on to the next allowed round in such a state or ends with everything `EveryRun` promises; so the throw behind the loop is never reached |
| `Generation.RoundFails` | src/client.cpp:585-605 | A failing round appends nothing and runs no tool, reports one error event, and leaves all that `EveryRun` promises |
| `Generation.CallFaultExact` | src/client.cpp:461-479 | The id check passes exactly when every call has an id and a name and no id repeats |
| `Generation.CallLimitExact` | src/client.cpp:448-460 | A batch is refused for its size exactly when the calls so far and the requested ones together exceed the limit; no tool runs in the last allowed round |
| `Generation.ReturnedUsageExact` | src/client.cpp:481-522 | A returned response has a counter exactly when every round reported it, and then the true sum |
| `Generation.OverflowIsReal` | src/client.cpp:278-281 | Adding the usage of a round fails exactly when some counter, reported in every round up to one of them, sums past a word |
| `Generation.AnswerPlace` | src/client.cpp:514-560 | A message of the model in the history that a run leaves is the answer of some round and stands where the request of that round ended |
| `Generation.SomeRunExecutes` | src/client.cpp:636-694 | For any calls and any positive parallelism there is an executor run that returns, so the assumption made of the parallel path can always be met |
| `Client.AIClient.Generate` | src/client.cpp:375-606 | The imperative loop, with the lease, tracers that may throw on any event, and the session as an object, does exactly what `Generation.Generate` computes; refused inputs and busy sessions change nothing; the session is free at the end |
| `Client.AIClient.ProviderRound` | src/client.cpp:414-581 | The loop body moves session, totals and trace to the state `Generation.OneRound` gives; neither total wraps around |
| `Client.ValidateInput` | src/client.cpp:766-812 | The checks of the input, content by content, refuse it exactly if it is no user message, is empty, has an empty text, or has a kind of content or an extension that the model does not take, or if the options are out of range |
| `Client.AIClient.Ask` | src/client.cpp:427-512 | Provider call and checks in the order of the source: the first failing one decides, with the trace as it then stands; which failure it is, `Outcomes.OutcomeExactly` says |
| `Client.AIClient.CheckCalls` | src/client.cpp:461-479 | The loop over the calls reports the first call without id or name or with a repeated id |
| `Client.AIClient.AppendResults` | src/client.cpp:546-560 | Every execution becomes one tool message, in order; none can be refused once ids and names are checked; the error flag says whether any failed |
| `Client.AIClient.ExecuteTools` | src/client.cpp:636-694 | On the sequential and on the parallel path result i belongs to call i |
| `Client.AIClient.ExecuteTool` | src/client.cpp:696-764 | A tool start, the outcome of the call, and a matching tool end |
| `Client.AIClient.Trace` | src/client.cpp:626-634 | Each tracer is offered each event; what tracers throw on changes nothing but their own logs |
| `Tools.ValidateToolSpec` | src/client.cpp:124-141 | Accepts exactly the declarations with a valid name, a description, an accepted object schema and object options |
| `Tools.Register` | src/client.cpp:341-362 | Registration succeeds exactly when no tool is null, all declarations are valid, no name repeats, and the model takes tools unless there are none; the registry then maps each name to its tool and schema |
| `Tools.AdmittedExactly` | src/client.cpp:708-735 | Tool code runs exactly for calls of a registered tool whose arguments parsed and conform to its schema; no type error escapes the argument check |
| `Tools.OutputExactly` | src/client.cpp:696-764 | The output of a call is just what the tool gave if the call conforms and the tool gave contents; otherwise it is an error of one text that says why: unknown tool, arguments that are no JSON, arguments that do not conform, with a true complaint about them, a tool that raised, or no content |
| `Tools.ToolNamesExactly` | src/client.cpp:47-56 | Tool names are one to sixty-four letters, digits, underscores and hyphens of ASCII |
| `Types.ToolMessage` | src/types.cpp:224-237 | A tool message is refused exactly when its call id or tool name is empty |
| `Executor.ReturnedJobComplete` | src/client.cpp:636-694 | Whenever an execution returns, under any interleaving with other executions and with a failing thread creation anywhere: one result per call, in call order, although results are taken from whatever future or position the collecting thread has come to; each admitted call invoked exactly once; each start and end reported once |
| `Outcomes.WorkExactly` | src/client.cpp:696-764 | What the executor works on for a call: its tool exactly if the call conforms, and what the call comes to |
| `Executor.ParallelismBounded` | src/client.cpp:650-692 | In every reachable state at most min(limit, calls) executions of one batch are active, across batches and the fallback |
| `Executor.ParallelismReached` | src/client.cpp:650-677 | And for any calls there is a run in which just as many are active at once |
| `Executor.OneInsideEachTool` | src/client.cpp:725-731 | No two threads, of whatever clients, are ever inside the code of the same tool object |
| `Executor.NeverStuck` | src/client.cpp:636-694 | While an execution has not returned, some step is possible |
| `Executor.RunsEnd` | src/client.cpp:658-692 | No run of the executor is longer than a bound known at its start |
| `Executor.RunsToCompletion` | src/client.cpp:636-694 | However far a run has got, it can be carried on until every execution has returned |
| `Executor.ReachableInv` | src/client.cpp:636-764 | The invariant of all running executions and of the tool locks holds in every reachable state |
| `Trace.BracketedEnds` | src/client.cpp:395-606 | In an accepted trace the generation start is first and only first, and one closing event, generation end or error, is last and only last |
| `Trace.ToolStartIsEnded` | src/client.cpp:700-761 | Every tool start of an accepted trace has one end, with only events of other tool calls between them |
| `Trace.ProviderEndClosesStart` | src/client.cpp:427-500 | In an accepted trace every provider end comes directly after the provider start of its round |
| `Trace.ToolEventInRound` | src/client.cpp:483-543 | In an accepted trace only other tool events lie between a tool event and the provider end of its round before it |
| `Usage.AccumulationExact` | src/client.cpp:264-298 | After any number of rounds a counter is present exactly when every round reported it and is then the true sum; overflow is raised exactly when the first rounds of some number all report a counter and sum past a word |
| `Usage.AddUsage` | src/client.cpp:285-298 | All six counters move together or one overflows |
| `Usage.AddCount` | src/client.cpp:264-283 | One counter: present afterwards exactly when this round and, after the first, all before reported it, and then the true sum; refused exactly when that sum is past a word |
| `LeaseProtocol.OneLeaseAtATime` | src/session.cpp:115-146 | Under any interleaving of any number of threads at most one lease is live, the session is active exactly while one is, and every acquired lease is released exactly once, moved or not |
| `LeaseProtocol.OnlyTheRunChangesHistory` | src/session.cpp:66-105 | While a lease is live the history changes only by appends of the thread that holds it, at the end; public mutators change nothing; history never holds a system message |
| `LeaseProtocol.SnapshotsGrow` | src/session.cpp:96-99 | Every history a run has read is a prefix of every one it reads later |
| `LeaseProtocol.ReachableInv` | src/session.cpp:66-155 | The invariant of mutex, flag, leases, threads in the middle of an operation, and snapshots holds in every reachable state |
| `LeaseProtocol.OperationDone` | src/session.cpp:66-155 | Every operation can begin while the mutex is free and can be taken to its end under the mutex, and then has done to history, instruction, flag, leases and snapshots just what the session does for a single caller |
| `LeaseProtocol.LeaseSteps` | src/session.cpp:107-146 | Moving a lease passes the session on, destroying an owning one frees it once, and an ended one does nothing |
| `Session.Session.Restore` | src/session.cpp:43-58 | Restoring is refused exactly for an empty instruction or a system message in the history |
| `Session.Session.SetSystem` | src/session.cpp:66-78 | Succeeds exactly for a nonempty text on an idle session without history; otherwise nothing changes |
| `Session.Session.Append` | src/session.cpp:85-94 | Succeeds exactly for a message that is not a system message on an idle session; otherwise nothing changes |
| `Session.Session.ClearMessages` | src/session.cpp:101-105 | Clears exactly an idle session |
| `Session.Session.AppendFromClient` | src/session.cpp:148-155 | Appends whatever is not a system message, lease or not |
| `Session.Session.Acquire` | src/session.cpp:129-142 | Succeeds exactly on an idle session, which is then active and owned by the new lease |
| `Session.RunLease.Move` | src/session.cpp:118-121 | The new lease owns the session, the old one nothing |
| `Session.RunLease.Destroy` | src/session.cpp:123-127 | Frees the session of an owning lease; a lease that was moved from frees nothing |
| `Redaction.RedactSensitiveValues` | src/provider_common.cpp:78-107 | The index loop over the sorted list computes the leftmost-longest replacement of the set of values; it ends even with empty values in the list |
| `Redaction.SegmentationUnique` | src/provider_common.cpp:91-105 | A text has exactly one segmentation in which a character is kept only where no secret starts and what is cut is the longest secret there |
| `Redaction.SecretReplaced` | src/provider_common.cpp:86-104 | A secret alone becomes the ten characters `[REDACTED]` |
| `Redaction.EmptySecretsIgnored` | src/provider_common.cpp:94-97 | Empty secrets make no difference |
| `Redaction.FindMatch` | src/provider_common.cpp:92-97 | The first match in a list sorted by length is the longest secret at that place, whatever the order of equal lengths |
| `Redaction.LeakTouches` | src/provider_common.cpp:86-107 | For any list: a secret that can be read in the result, even across marker boundaries, agrees with a marker it overlaps, and what it has in front of that marker was kept in front of some secret |
| `Redaction.UntouchedIsClean` | src/provider_common.cpp:86-107 | For any list in which no secret agrees with the marker wherever they overlap: the result shows none, and redacting it again changes nothing |
| `Redaction.LeakIsLocal` | src/provider_common.cpp:86-107 | For any list and any input: a secret can be read in the result exactly when it can be read in what becomes of a part of the input of at most as many kept characters and cut secrets as it has characters |
| `Redaction.SafeExactly` | src/provider_common.cpp:86-107 | Any list is safe for all inputs exactly when it is for those no longer than the square of the length of its longest secret |
| `Redaction.ExposedExactly` | src/provider_common.cpp:86-107 | Unless a secret has the marker strictly inside it, that is exactly when none of its secrets is exposed: none without other secrets in it can be laid over the marker so that they agree and its front, if any, is kept; and where none is exposed the list is safe in any case |
| `Redaction.LeaksExactly` | src/provider_common.cpp:86-107 | If the secrets that touch the marker lie inside it, so for all lists without brackets: the result shows a secret exactly when one is part of the marker and the input showed one |
| `Redaction.BracketFreeIsPredictable` | src/provider_common.cpp:86-107 | Lists without brackets meet that condition, and part of the marker then means part of its word |
| `Redaction.BracketsCanBeSafe` | src/provider_common.cpp:86-107 | A secret with a bracket that never touches the marker: brackets as such do no harm |
| `Redaction.IdempotentExactly` | src/provider_common.cpp:86-107 | Under the same condition, redacting again changes nothing exactly when no secret survived or the marker is itself a secret |
| `Redaction.EveryOccurrenceIsHit` | src/provider_common.cpp:91-105 | For any secrets at all, every occurrence of one in the input meets a part that is cut out |
| `Redaction.NothingToRedact` | src/provider_common.cpp:91-106 | A text without secrets is returned unchanged |
| `Redaction.BracketSecretLeaks` | src/provider_common.cpp:86-104 | A secret that reappears in the result although it is no part of the word: it starts with the bracket of the marker |
| `Redaction.AppendUniqueSecret` | src/provider_common.cpp:68-76 | A nonempty value is in the list afterwards, once; an empty one never |
| `RedactionTree.RedactJsonStrings` | src/provider_common.cpp:109-137 | The recursion over strings, arrays and objects computes the redacted tree |
| `RedactionTree.KindsStay` | src/provider_common.cpp:109-137 | Strings are redacted, arrays element by element, objects stay objects, and all else stays what it is |
| `RedactionTree.UntouchedTreeIsClean` | src/provider_common.cpp:109-137 | Where no secret touches the marker, a redacted tree shows none in any string or member name at any depth, and redacting it again changes nothing |
| `RedactionTree.SafeForTreesExactly` | src/provider_common.cpp:109-137 | A list is safe for all trees exactly when it is safe for all texts |
| `RedactionTree.TreeLeaksExactly` | src/provider_common.cpp:109-137 | If the secrets that touch the marker lie inside it, a redacted tree shows a secret in some string or member name exactly when one is part of the marker and the tree showed one |
| `RedactionTree.ObjectRedaction` | src/provider_common.cpp:126-136 | The member names of a redacted object are exactly the redacted names, and of several that become one the last in name order is kept |
| `RedactionTree.CleanTreeUnchanged` | src/provider_common.cpp:109-137 | A tree that shows no secret is returned unchanged |
| `Base64.Decode` | src/provider_common.cpp:411-479 | Decoding gives some bytes exactly when there is at least one and the text without ASCII whitespace is their encoding; so wrong lengths, inner padding and nonzero pad bits are refused (sections 3.5 and 4 of RFC 4648) |
| `Base64.Encode` | src/provider_common.cpp:376-409 | Four characters for each three bytes begun, each the one that the written-out table lists for its six bits, or padding where the byte is missing |
| `Base64.AlphabetIsTable` | src/provider_common.cpp:377-442 | The alphabet is that of table 1 of RFC 4648, sixty-four characters written out, for both directions |
| `Base64.RemoveWhitespace` | src/provider_common.cpp:413-422 | Drops the six ASCII whitespace characters, by their codes, and nothing else |
| `Base64.DecodedExact` | src/provider_common.cpp:446-478 | On texts without whitespace decoding and encoding are inverse to each other, both ways |
| `Base64.DecodeGroup` | src/provider_common.cpp:449-476 | A group is accepted exactly when it is the encoding of one to three bytes, fewer than three only in the last group, and decodes to just those |
| `Schema.ValidateDecides` | src/client.cpp:168-262 | Against an accepted definition the value check never performs an ill-typed access and reports nothing exactly when the value conforms, at every depth, to type, enum, required, properties, additionalProperties and items |
| `Schema.DefinitionAccepted` | src/client.cpp:58-122 | A definition is accepted exactly when it is well formed at every depth |
| `Schema.TypesDecide` | src/client.cpp:143-166 | For each of the seven type names, exactly which values a definition with only that type accepts; no other name is accepted in a definition or accepts a value |
| `Schema.ComplaintIsTrue` | src/client.cpp:168-262 | Against an accepted definition every complaint is true: it names a place at or below the value given, and there the type is not the one asked for, the value is not listed, a required member is missing, or a member is not allowed |
| `Schema.ComplaintPlaced` | src/client.cpp:168-262 | A text that may be complained of begins with the path of the value checked |
| `Schema.AnyEqual` | src/client.cpp:184-189 | Finds an equal enum candidate exactly when there is one |
| `Json.SameWithoutNumbers` | src/client.cpp:184-189 | Values without numbers are equal exactly when they are the same |
| `Json.RoundedExactly` | src/client.cpp:184-189 | Compared with a floating number, an integer counts as the nearest multiple of the least power of two leaving 53 bits, halfway between two as the even one, and keeps its sign |
| `Schema.EnumOfFloatExactly` | src/client.cpp:184-189 | Between an integer and a floating number, listed either way round, the enum check is exact for just the integers that are multiples of the least power of two leaving 53 bits |
| `Schema.EnumOfWordExactly` | src/client.cpp:184-189 | Between two integers it is exact for just those that a signed and an unsigned word both hold |
| `Schema.EnumAcceptsUnlisted` | src/client.cpp:184-189 | Values that pass the check and are not listed: 2^53 + 1 where 2^53 is listed as a floating number, and 2^64 - 1 where -1 is listed |
| `Turns.BuiltIsGrouped` | src/providers/anthropic.cpp:89-99 | Appending message by message gives the canonical grouping: no two neighbours share a role, every payload is an array, and flattening gives back every block in order |
| `Turns.TurnList.AppendTurn` | src/providers/gemini.cpp:83-93 | The loop that pushes blocks onto the last turn, or the new turn, is one merge step |
| `Pairing.RequestPaired` | src/providers/anthropic.cpp:89-136 | End to end, for runs one after another on a session, failed ones included: in every request that can be rendered roles alternate and each tool use of an assistant turn is answered exactly once, in order, by the leading results of the next user turn, with no other result anywhere, also across merged continuation turns, exactly when no user message in it carries a tool result of its own |
| `Pairing.HistoryPaired` | src/providers/anthropic.cpp:89-136 | The same, both ways, for the history such runs leave behind |
| `Pairing.TranscriptPaired` | src/providers/anthropic.cpp:101-136 | The same, both ways, for any complete history whose assistant messages come from responses |
| `Pairing.SmuggledResult` | src/client.cpp:805-810 | A user message the client accepts and with which a request is not paired: a provider extension that is a tool result |
| `Anthropic.ParseResponse` | src/providers/anthropic.cpp:245-325 | The content loop gives contents and calls as `ReadBlocks` says, and stops at the first malformed block |
| `Anthropic.AppendHistory` | src/providers/anthropic.cpp:101-136 | One message adds its blocks to the turns, or fails and leaves them |
| `Anthropic.RenderHistory` | src/providers/anthropic.cpp:101-136 | A history rendered message by message |
| `Anthropic.RenderedIsGrouped` | src/providers/anthropic.cpp:89-136 | The turns of any history are the canonical grouping of what its messages contribute |
| `Anthropic.RenderedExactly` | src/providers/anthropic.cpp:73-136 | A history can be sent exactly when every content of every message that is not replayed natively has a wire form |
| `Anthropic.CallsAreUses` | src/providers/anthropic.cpp:293-318 | The calls are the native tool uses, in order, with their ids, names, inputs and whole blocks |
| `Anthropic.ContentsShowBlocks` | src/providers/anthropic.cpp:279-321 | The contents are the other blocks, in order: text as text, all else untouched |
| `Anthropic.ReplayIsFaithful` | src/providers/anthropic.cpp:323-325 | A parsed response enters the next request as exactly its native blocks |
| `Reading.AnthropicRead` | src/providers/anthropic.cpp:245-334 | Exactly which responses are read, field by field; every other one is a malformed response; role, replayed content, argument texts and continuation mark of those that are |
| `Sending.AnthropicSent` | src/providers/anthropic.cpp:20-136 | Exactly which messages have a wire form, and it written out, content by content and call by call; otherwise the failure of the first content without one |
| `Gemini.RequestPaired` | src/providers/gemini.cpp:83-201 | End to end, for runs one after another on a session: in every request roles alternate and no part is lost or reordered; each function call is answered by exactly one function response of its name and id, in the order of the calls, by the messages directly behind it, exactly when every message of the model and the user is orderly: it holds no response, no call under the role of the user, and nothing of the user behind a call |
| `Gemini.SmuggledPart` | src/client.cpp:805-810 | User messages whose extension the client accepts and with which a transcript is not paired: a function response, and a function call |
| `Gemini.UnorderlyUnpaired` | src/providers/gemini.cpp:144-201 | Every message that is not orderly makes an unpaired transcript: a user message alone, a response with the results the client appends |
| `Gemini.CallUnderUser` | src/providers/gemini.cpp:149-157 | So does every response with a call under the role of the user |
| `Gemini.SomeCallUnderUser` | src/providers/gemini.cpp:351-662 | One that is read without complaint |
| `Gemini.ResponseIdExact` | src/providers/gemini.cpp:159-172 | A function response goes back under the call's name and has an id exactly when the provider supplied a nonempty one, equal to it |
| `Gemini.ReplayIsFaithful` | src/providers/gemini.cpp:149-157 | A parsed response enters the next request as exactly its native parts, under its role or as the model's; without parts not at all |
| `Reading.GeminiRead` | src/providers/gemini.cpp:351-662 | Exactly which responses are read, field by field, and otherwise the failure of the first part that is wrong |
| `Reading.GeminiMediaRead` | src/providers/gemini.cpp:579-635 | Media are read as the kind their type begins with, with their very bytes or their location |
| `Reading.GeminiCallRead` | src/providers/gemini.cpp:636-657 | Every field of a call: id, name, arguments or an empty object, their text, the whole part |
| `Sending.GeminiSent` | src/providers/gemini.cpp:27-201 | Exactly which messages have a wire form, and it written out: contents, calls, and a tool result as an object of its text, with error mark, id and attachments; otherwise the failure |
| `Gemini.CallsAreFunctionCalls` | src/providers/gemini.cpp:636-657 | The calls are the native function calls, in order; ids, names and arguments as sent, or a made-up id and an empty object |
| `Gemini.ContentsShowParts` | src/providers/gemini.cpp:568-658 | The contents are the other parts, in order: text, thoughts untouched, media with the very bytes or location |
| `Gemini.MadeUpIdsDiffer` | src/providers/gemini.cpp:638-655 | Two calls of one response without provider ids get different ids |
| `Gemini.ParseParts` | src/providers/gemini.cpp:424-659 | The part loop with its call index; the first bad part ends it |
| `Gemini.AppendHistory` | src/providers/gemini.cpp:144-201 | One message adds its parts to the turns, or nothing, or fails |
| `Gemini.RenderHistory` | src/providers/gemini.cpp:221-225 | The contents of a request are the canonical grouping of what the messages contribute |
| `OpenAI.RequestPaired` | src/providers/openai.cpp:88-145 | End to end, for runs one after another on a session: in every request each function call item is answered by exactly one output with its call id, in the order of the calls, by the messages directly behind it, exactly when no response in it holds an output or, behind a call, a user item of its own |
| `OpenAI.UnorderlyUnpaired` | src/providers/openai.cpp:88-128 | Every response that does, with the results the client appends to it, makes an unpaired transcript |
| `OpenAI.AnsweringResponse` | src/providers/openai.cpp:88-94 | Every response with an output item of its own is such a one |
| `OpenAI.SelfAnswered` | src/providers/openai.cpp:278-422 | One that is read without complaint, and its unpaired transcript: it holds a call and an answer to it |
| `OpenAI.ReplayIsFaithful` | src/providers/openai.cpp:88-94 | A parsed response enters the next request as exactly its native output items |
| `Reading.OpenAIRead` | src/providers/openai.cpp:259-435 | Exactly which responses are read, field by field, and otherwise the failure of the first item that is wrong; every field of the calls |
| `Reading.OpenAIImageRead` | src/providers/openai.cpp:228-247 | An image is shown by a data URL of its very bytes, as the kind its first bytes say |
| `Reading.OpenAIErrorShown` | src/providers/openai.cpp:423-435 | Where the output shows nothing, the message of an error object is the only content |
| `Sending.OpenAISent` | src/providers/openai.cpp:20-128 | Exactly which messages have a wire form, and it written out: a tool result is its one text, nothing, or its contents in order, under its call id; contents and calls item by item; otherwise the failure of the first content without a form |
| `OpenAI.CallsAreFunctionCalls` | src/providers/openai.cpp:383-421 | The calls are the native call items, in order, with ids, names, argument texts and whole items |
| `OpenAI.ContentsShowParts` | src/providers/openai.cpp:296-382 | The contents are the message parts and images, in order; a response counts as refused exactly when a message part is a refusal |
| `OpenAI.ParseOutput` | src/providers/openai.cpp:278-422 | The loop over output items; the first bad item ends it |
| `OpenAI.ParseMessage` | src/providers/openai.cpp:307-354 | The loop over the parts of a message |
| `OpenAI.AppendHistory` | src/providers/openai.cpp:88-128 | One message pushes its items, or fails |
| `OpenAI.RenderHistory` | src/providers/openai.cpp:141-145 | The input array of a request |
| `Compatible.RequestPaired` | src/providers/openai_compatible.cpp:120-200 | End to end, for runs one after another on a session: in every request the calls of each message are answered by exactly one message each, listed calls by id and a legacy call by name, in order and directly behind it, exactly when every response in it is answerable: under a role of the model, or of the user without calls, and with no listed call marked as legacy |
| `Compatible.ReplayIsFaithful` | src/providers/openai_compatible.cpp:124-143 | Once parsed, sending back never fails, and sends the native message with only its audio reduced to the id |
| `Reading.CompatibleRead` | src/providers/openai_compatible.cpp:299-567 | Exactly which responses are read, field by field |
| `Reading.CompatibleFailure` | src/providers/openai_compatible.cpp:321-548 | How the others fail, in the order of contents, calls, legacy call and audio |
| `Reading.CompatibleCallsRead` | src/providers/openai_compatible.cpp:390-506 | Every field of the calls, of listed entries or of the legacy call |
| `Reading.CompatibleContentsRead` | src/providers/openai_compatible.cpp:508-563 | The refusal and the transcript stand in only where there are no contents, and audio comes last, with its very bytes and options |
| `Reading.CompatiblePartIs` | src/providers/openai_compatible.cpp:325-380 | What a listed part is read as: its text, an image at its very location, or the part itself unchanged |
| `Sending.CompatibleSent` | src/providers/openai_compatible.cpp:18-183 | Exactly which messages have a wire form, and it written out: one text as it is or parts, calls, audio with the format of its option or media type; a tool result has to be all text and is then sent whole; otherwise the failure |
| `Compatible.AnsweredByIdExactly` | src/providers/openai_compatible.cpp:145-167 | The result of a listed call goes back under its id exactly when the server did not itself mark the call as legacy |
| `Compatible.MarkedCallLosesItsId` | src/providers/openai_compatible.cpp:147-165 | A listed call with such a mark is asked under its id, and its result goes back without it |
| `Compatible.UnanswerableUnpaired` | src/providers/openai_compatible.cpp:120-183 | Every response that is not answerable, with the results the client appends to it, makes an unpaired transcript |
| `Compatible.MarkedCallUnpaired` | src/providers/openai_compatible.cpp:147-165 | One that is read without complaint, and its unpaired transcript: it holds a listed call with such a mark |
| `Compatible.CallsAreNative` | src/providers/openai_compatible.cpp:395-506 | The calls are the listed entries, in order; only without any does the legacy call stand in, under a made-up id |
| `Compatible.ContentsShowParts` | src/providers/openai_compatible.cpp:325-380 | The parts of a list of contents come first, in order, each showing what it came from; refusal and transcript stand in only when there are none |
| `Compatible.AudioIsKept` | src/providers/openai_compatible.cpp:514-563 | The audio is the last content, with the very bytes sent and all options but the data |
| `Compatible.AppendHistory` | src/providers/openai_compatible.cpp:120-183 | One message pushes at most one message, or fails |
| `Compatible.RenderHistory` | src/providers/openai_compatible.cpp:197-200 | The messages of a request behind the system instruction |
| `Sending.NativeExactly` | src/providers/anthropic.cpp:13-18 | A message is replayed natively exactly when it carries what this very provider sent, in each adapter |
| `Sending.SystemMessagesMove` | src/providers/anthropic.cpp:102-104 | System messages of a history add nothing to the messages of a request, except for OpenAI |
| `Dialogue.PairedExactly` | src/client.cpp:514-560 | On any wire that matches item by item, a complete history is paired exactly when each message of the model and the user, taken alone, leaves open just the calls the client answers behind it |
| `Dialogue.CollectedPaired` | src/providers/openai.cpp:141-145 | The same, both ways, for what a loop over the messages puts on the wire |
| `Dialogue.CollectedExact` | src/providers/openai_compatible.cpp:197-199 | A request can be built exactly when each of its messages has a wire form |
| `Sessions.SessionKeepsGood` | src/client.cpp:375-606 | Runs one after another on a session keep the history complete and made of what providers and users put in |
| `Sessions.SomeRequest` | src/client.cpp:414-438 | Any user message the conditions allow is sent by some run: the results about requests are not empty |
| `Sessions.RequestIsGood` | src/client.cpp:414-438 | So is every request of every such run |
| `MadeUpIds.NeverRepeatInHistories` | src/client.cpp:22-26 | In the histories that the runs of a process leave, on whatever sessions, read by the Gemini or the OpenAI-compatible adapter from whatever responses, two calls without ids of the provider have the same id exactly when they are the same call, unless the run counter has gone all the way round |
| `SyntheticIds.NeverRepeat` | src/providers/openai_compatible.cpp:495-504 | The same for every id that could be made up in any round, also in one that fails |
| `SyntheticIds.GeminiIdInjective` | src/providers/gemini.cpp:638-643 | The Gemini id determines run, history length and call index |
| `SyntheticIds.LegacyIdInjective` | src/providers/openai_compatible.cpp:495-496 | The legacy id determines run and history length |
| `SyntheticIds.RunIdsRepeatExactly` | src/client.cpp:22-26 | Two runs share an id exactly when their numbers agree modulo 2^64 |
| `SyntheticIds.IdForms` | src/providers/gemini.cpp:638-643 | What run ids and made-up ids look like |
| `SyntheticIds.RunCounter.MakeRunId` | src/client.cpp:22-26 | Each run takes the next number; the counter wraps |

## Left out

- HTTP transport, sockets, URL and header handling, credentials and environment lookup: foreign calls and I/O.
- Tracer sinks, time stamps, trace levels and attributes, and captured payloads: I/O. A tracer is a log that may throw.
- Reading and printing JSON text: library code; both are parameters of the adapters.
- The other half of a response: finish reasons, provider model and request ids, and how each adapter reads token counts.
- The other half of a request: options, tool declarations, and joining system instructions.
- Wire forms of media given by the user (detail, filename, size and type checks in each adapter): a media part carries the wire form its adapter gives it.
- Display names of Gemini files, and filenames, which the wire form of a media part does not carry.
- Locks of a tool taken again by the same thread (a tool that starts a generation which calls the tool again): no promise is made for it, and the model's locks are not recursive.
- Tools that throw while the lock itself cannot be taken, and running out of memory: taken as not happening.
- Session state shared by tools, and session ids.
- Events of several runs in one tracer: the trace of a run is what remains after selecting its run id.
- Client.AIClient.ExecuteTools: the parallel path takes results and events from a run of the executor protocol instead of starting threads; `Executor` is where the threads are.
- Client.AIClient.Generate: the history copied into each request, and the lease, are used by one thread here; `LeaseProtocol` has the interleavings.
- RedactionTree.RedactJsonStrings: returns the redacted tree where the source overwrites its argument.
- Redaction.AppendUniqueSecret: returns the grown list where the source grows its argument.
- Redaction.ExposedExactly: for a list with a secret that has the whole marker strictly inside it, only says that it is safe when nothing is exposed; `Redaction.SafeExactly` decides it for every list.
- Redaction.LeaksExactly: for a single text and a list with secrets that run across the edge of the marker, `Redaction.LeakIsLocal` says it instead.
- Redaction.IdempotentExactly: the same lists are left out; `Redaction.UntouchedIsClean` says it of every list in which no secret touches the marker.
- RedactionTree.TreeLeaksExactly: the same; `RedactionTree.SafeForTreesExactly` carries `Redaction.SafeExactly` to trees.
- Base64.Encode: shifts and masks are written as division and remainder by powers of two.
- Schema.ValidateDecides: floating numbers are reals, so the rounding of the text they were read from, and negative zero, are not modelled.
- Anthropic.ParseResponse: gives contents, calls, native blocks and the continuation mark; finish reason, token usage and ids are not modelled.
- Anthropic.AppendHistory: titles, source kinds and the PDF rule of media blocks are part of the wire form a media content carries.
- OpenAI.AppendHistory: detail and filename of media parts are part of the wire form a media content carries.
- Compatible.AppendHistory: image detail and file forms are part of the wire form a media content carries.
- Gemini.AppendHistory: which parts user media become is part of the wire form a media content carries; which locations may be sent is checked here.
- Pairing.RequestPaired: a request that cannot be rendered because of unsupported content is not sent, so nothing is claimed of it; `Anthropic.RenderedExactly` says which these are.
