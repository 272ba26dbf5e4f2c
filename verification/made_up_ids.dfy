/** The ids made up for calls, in the histories that the runs of a process leave behind. */
module MadeUpIds {
  import opened Json
  import opened Types
  import opened Wire
  import opened SyntheticIds
  import Compatible
  import Gemini
  import Generation

  /** The adapters that make up ids. */
  datatype Adapter = ReadsGemini(dump: Json -> string) | ReadsCompatible(parse: string -> Option<Json>)

  /** The message is what the adapter reads from some response, told where it comes from. */
  ghost predicate ReadFrom(adapter: Adapter, origin: Origin, message: Message)
  {
    match adapter
    case ReadsGemini(dump) => exists body :: Gemini.ParsedResponse(body, origin, dump) == Ok(message)
    case ReadsCompatible(parse) => exists body :: Compatible.ParsedResponse(body, origin, parse) == Ok(message)
  }

  /** The runs of a process, in the order in which they took their ids, and how each of them
      reads responses. */
  datatype Process = Process(runs: seq<Started>, adapters: seq<Adapter>)

  /** Every answer to a run is read with the run's own id and the number of messages the run
      asked with. */
  ghost predicate ProcessOk(process: Process)
  {
    && StartedOk(process.runs) && |process.adapters| == |process.runs|
    && forall i, k: nat | 0 <= i < |process.runs| && k < |RequestsOf(process.runs[i])| :: RoundOk(process, i, k)
  }

  ghost predicate RoundOk(process: Process, i: nat, k: nat)
    requires StartedOk(process.runs) && i < |process.runs| && i < |process.adapters|
    requires k < |RequestsOf(process.runs[i])|
  {
    var outcome := process.runs[i].oracle.provider(k + 1);
    outcome.Replied? ==>
      ReadFrom(process.adapters[i], Origin(RunIdAt(i), |RequestsOf(process.runs[i])[k]|), outcome.response.message)
  }

  /** A call without an id of the provider's. */
  predicate MadeUp(adapter: Adapter, call: ToolCall)
  {
    if adapter.ReadsGemini? then !Gemini.SuppliedId(call.metadata) else Missing(call.metadata, "id")
  }

  /** The made-up id says where the call was made. */
  lemma {:induction false} MadeUpIdIs(adapter: Adapter, origin: Origin, message: Message, x: nat)
    requires ReadFrom(adapter, origin, message) && x < |message.calls| && MadeUp(adapter, message.calls[x])
    ensures adapter.ReadsGemini? ==> message.calls[x].id == GeminiId(origin.run, origin.messages, x)
    ensures adapter.ReadsCompatible? ==> x == 0 && message.calls[x].id == LegacyId(origin.run, origin.messages)
  {
    if adapter.ReadsGemini? {
      var body :| Gemini.ParsedResponse(body, origin, adapter.dump) == Ok(message);
      Gemini.ParsedCalls(body, origin, adapter.dump);
      hide Gemini.ParsedResponse, Gemini.NativeContent, Gemini.NativeParts, Gemini.CallParts, GeminiId;
    } else {
      var body :| Compatible.ParsedResponse(body, origin, adapter.parse) == Ok(message);
      Compatible.SentBack(body, origin, adapter.parse);
      var native := Compatible.Native(body).value;
      Compatible.CallsAreNative(native, origin, adapter.parse);
      hide Compatible.ParsedResponse, Compatible.ParsedMessage, Compatible.Native, LegacyId;
      hide Compatible.MessagesOf, Compatible.Reduced;
    }
  }

  // ---- places in histories ----

  /** A call in the history that a run leaves: of which run, message and number. */
  datatype Place = Place(run: nat, message: nat, index: nat)

  ghost function HistoryOf(started: Started): (history: seq<Message>)
    requires started.config.maxRounds >= 1
  {
    Generation.Generate(started.config, started.oracle, started.history, started.input).1.history
  }

  /** The place holds a call with a made-up id, in a message that its run was answered. */
  ghost predicate Holds(process: Process, place: Place)
    requires ProcessOk(process)
  {
    && place.run < |process.runs|
    && var started := process.runs[place.run];
       && |started.history| < place.message < |HistoryOf(started)|
       && var message := HistoryOf(started)[place.message];
          && message.role.AssistantRole? && place.index < |message.calls|
          && MadeUp(process.adapters[place.run], message.calls[place.index])
  }

  ghost function IdIn(process: Process, place: Place): (id: string)
    requires ProcessOk(process) && Holds(process, place)
  {
    HistoryOf(process.runs[place.run])[place.message].calls[place.index].id
  }

  /** Which round of its run a message of the model in the history comes from. */
  lemma {:induction false} RoundAt(started: Started, p: nat) returns (round: nat)
    requires Generation.ConfigOk(started.config) && Generation.Faithful(started.config, started.oracle)
    requires |started.history| < p < |HistoryOf(started)| && HistoryOf(started)[p].role.AssistantRole?
    ensures round < |RequestsOf(started)| && started.oracle.provider(round + 1).Replied?
    ensures HistoryOf(started)[p] == started.oracle.provider(round + 1).response.message
    ensures p == |RequestsOf(started)[round]|
  {
    hide Generation.Generate, Generation.Faithful, Generation.ConfigOk;
    var k := Generation.AnswerPlace(started.config, started.oracle, started.history, started.input, p);
    round := k - 1;
  }

  lemma {:induction false} SiteOf(process: Process, place: Place) returns (site: Site)
    requires ProcessOk(process) && Holds(process, place)
    ensures OnSite(process.runs, site) && IdAt(process.runs, site) == IdIn(process, place)
    ensures site.run == place.run && place.message == |RequestsOf(process.runs[site.run])[site.round]|
    ensures site == if process.adapters[place.run].ReadsGemini? then GeminiSite(place.run, site.round, place.index)
                    else LegacySite(place.run, site.round)
    ensures process.adapters[place.run].ReadsCompatible? ==> place.index == 0
  {
    hide HistoryOf, RequestsOf, Generation.Faithful, ReadFrom, MadeUp, RunIdAt, GeminiId, LegacyId;
    var i, started, adapter := place.run, process.runs[place.run], process.adapters[place.run];
    var round := RoundAt(started, place.message);
    var message := HistoryOf(started)[place.message];
    assert RoundOk(process, i, round);
    MadeUpIdIs(adapter, Origin(RunIdAt(i), |RequestsOf(started)[round]|), message, place.index);
    site := if adapter.ReadsGemini? then GeminiSite(i, round, place.index) else LegacySite(i, round);
  }

  /** In the histories that the runs of a process leave behind, on whatever sessions and from
      whatever responses, two calls have the same made-up id only if they are the same call, or
      the run counter has gone all the way round between their runs. */
  lemma {:induction false} NeverRepeatInHistories(process: Process, a: Place, b: Place)
    requires ProcessOk(process) && Holds(process, a) && Holds(process, b)
    ensures IdIn(process, a) == IdIn(process, b) && a != b ==> a.run != b.run && a.run % WORD == b.run % WORD
    ensures |process.runs| <= WORD ==> (IdIn(process, a) == IdIn(process, b) <==> a == b)
  {
    var s := SiteOf(process, a);
    var t := SiteOf(process, b);
    hide ProcessOk, Holds, IdIn, IdAt, RequestsOf;
    NeverRepeat(process.runs, s, t);
  }
}
