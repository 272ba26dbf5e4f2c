/** The client: the generation loop over a session, with tracing that cannot fail it. */
module Client {
  import opened Json
  import opened Types
  import opened Usage
  import opened Trace
  import opened Tools
  import opened Executor
  import opened Generation
  import opened Session

  datatype Capabilities = Capabilities(text: bool, image: bool, audio: bool, file: bool, provider: string)

  datatype GenerateOptions = GenerateOptions(
    temperature: Option<real>, maxOutputTokens: Option<size>, providerOptions: Json)

  predicate AcceptsContent(capabilities: Capabilities, content: Content)
  {
    match content
    case Text(value) => capabilities.text && value != []
    case Extension(provider, _) => provider == capabilities.provider
    case Media(kind, _) =>
      (kind == "image" ==> capabilities.image) && (kind == "audio" ==> capabilities.audio)
      && (kind == "file" ==> capabilities.file)
  }

  /** What a generation demands of its input before it touches the session. */
  predicate ValidInput(capabilities: Capabilities, input: Message, options: GenerateOptions)
  {
    && input.role.UserRole? && input.contents != []
    && (forall i | 0 <= i < |input.contents| :: AcceptsContent(capabilities, input.contents[i]))
    && (options.temperature.Some? ==> options.temperature.value >= 0.0)
    && options.maxOutputTokens != Some(0)
    && options.providerOptions.Obj?
  }

  /** The checks made of an input before anything else, content by content. */
  method ValidateInput(capabilities: Capabilities, input: Message, options: GenerateOptions) returns (ok: bool)
    ensures ok <==> ValidInput(capabilities, input, options)
    ensures !ok <==>
              || !input.role.UserRole? || input.contents == []
              || Text("") in input.contents
              || (!capabilities.text && exists text :: Text(text) in input.contents)
              || (!capabilities.image && exists payload :: Media("image", payload) in input.contents)
              || (!capabilities.audio && exists payload :: Media("audio", payload) in input.contents)
              || (!capabilities.file && exists payload :: Media("file", payload) in input.contents)
              || (exists name, data :: Extension(name, data) in input.contents && name != capabilities.provider)
              || (options.temperature.Some? && options.temperature.value < 0.0)
              || options.maxOutputTokens == Some(0)
              || !options.providerOptions.Obj?
  {
    if input.role != UserRole || |input.contents| == 0 { return false; }
    for i := 0 to |input.contents|
      invariant forall j | 0 <= j < i :: AcceptsContent(capabilities, input.contents[j])
    {
      match input.contents[i] {
        case Text(value) => if !capabilities.text || |value| == 0 { return false; }
        case Media(kind, _) =>
          if kind == "image" && !capabilities.image { return false; }
          if kind == "audio" && !capabilities.audio { return false; }
          if kind == "file" && !capabilities.file { return false; }
        case Extension(provider, _) => if provider != capabilities.provider { return false; }
      }
    }
    if options.temperature.Some? && options.temperature.value < 0.0 { return false; }
    if options.maxOutputTokens.Some? && options.maxOutputTokens.value == 0 { return false; }
    ok := options.providerOptions.Obj?;
  }

  /** What the loop body of one round decides. */
  datatype Step = GoOn(usage: TokenUsage, toolCalls: size) | End(outcome: Outcome)

  class AIClient {
    const config: Config
    const capabilities: Capabilities
    /** Whether tracer `t` takes the n-th event this client reports, or throws. */
    const accepts: (nat, nat) -> bool
    /** The events reported so far, and what each tracer has recorded of them. */
    var emitted: seq<TraceEvent>
    var logs: seq<seq<TraceEvent>>

    ghost predicate Valid()
      reads this
    {
      && ConfigOk(config)
      && forall t | 0 <= t < |logs| :: logs[t] == Taken(emitted, t)
    }

    /** The events a tracer did not throw on. */
    ghost function Taken(events: seq<TraceEvent>, t: nat): (taken: seq<TraceEvent>)
    {
      if events == [] then []
      else
        var n := |events| - 1;
        Taken(events[..n], t) + if accepts(t, n) then [events[n]] else []
    }

    constructor (config: Config, capabilities: Capabilities, tracers: nat, accepts: (nat, nat) -> bool)
      requires ConfigOk(config)
      ensures Valid() && |logs| == tracers && emitted == []
      ensures this.config == config && this.capabilities == capabilities && this.accepts == accepts
    {
      this.config := config;
      this.capabilities := capabilities;
      this.accepts := accepts;
      logs := seq(tracers, _ => []);
      emitted := [];
    }

    /** Every tracer is offered the event; one that throws is passed over. */
    method Trace(event: TraceEvent)
      requires Valid()
      modifies this`logs, this`emitted
      ensures Valid() && emitted == old(emitted) + [event] && |logs| == |old(logs)|
    {
      var n := |emitted|;
      var next := [];
      for t := 0 to |logs|
        invariant |next| == t
        invariant forall u | 0 <= u < t :: next[u] == logs[u] + if accepts(u, n) then [event] else []
      {
        next := next + [if accepts(t, n) then logs[t] + [event] else logs[t]];
      }
      logs := next;
      emitted := emitted + [event];
      assert emitted[..n] == old(emitted);
    }

    /** One call: its start is reported, tool code runs if the call is admitted, and its
        end is reported. */
    method ExecuteTool(call: ToolCall, invocation: Invocation) returns (execution: Execution)
      requires Valid()
      modifies this`logs, this`emitted
      ensures Valid() && |logs| == |old(logs)|
      ensures execution == Execution(call, WorkFor(config.registry, call, invocation).output)
      ensures emitted == old(emitted) + [ToolStart(call.id), ToolEnd(call.id, execution.output.isError)]
    {
      Trace(ToolStart(call.id));
      var admission := Admit(config.registry, call);
      AdmittedExactly(config.registry, call);
      hide Admit, AcceptsContent;
      var output;
      match admission {
        case Refused(text) => output := ErrorOutput(text);
        case Admitted(_) =>
          match invocation {
            case Raised => output := ErrorOutput("tool '" + call.name + "' failed");
            case Gave(given) =>
              output := given;
              if output.contents == [] {
                output := ErrorOutput("tool '" + call.name + "' returned no content");
              }
          }
      }
      Trace(ToolEnd(call.id, output.isError));
      execution := Execution(call, output);
    }

    /** Results come back in the order of the calls, on either path. */
    method ExecuteTools(oracle: Oracle, round: nat, calls: seq<ToolCall>) returns (results: seq<Execution>)
      requires Valid() && Faithful(config, oracle)
      requires oracle.provider(round).Replied? && oracle.provider(round).response.message.calls == calls
      modifies this`logs, this`emitted
      ensures Valid() && |logs| == |old(logs)|
      ensures |results| == |calls|
      ensures var works := WorksOf(config, oracle, round, calls);
              forall i | 0 <= i < |calls| :: results[i] == Execution(calls[i], works[i].output)
      ensures emitted == old(emitted) + BatchEvents(config, oracle, round, calls)
    {
      ghost var works := WorksOf(config, oracle, round, calls);
      hide WorkFor, WorksOf, Taken;
      if !config.parallel || |calls| < 2 {
        results := [];
        for i := 0 to |calls|
          invariant Valid() && |logs| == |old(logs)|
          invariant |results| == i
          invariant forall j | 0 <= j < i :: results[j] == Execution(calls[j], works[j].output)
          invariant emitted == old(emitted) + SequentialEvents(works[..i])
        {
          WorkAt(config, oracle, round, calls, i);
          assert works[..i + 1][..i] == works[..i];
          var execution := ExecuteTool(calls[i], oracle.invocation(round, i));
          results := results + [execution];
        }
        assert works[..|calls|] == works;
      } else {
        BatchResults(config, oracle, round);
        var batch := oracle.batch(round);
        for i := 0 to |batch.events|
          invariant Valid() && |logs| == |old(logs)|
          invariant emitted == old(emitted) + batch.events[..i]
        {
          Trace(batch.events[i]);
        }
        assert batch.events[..|batch.events|] == batch.events;
        results := batch.results;
      }
    }

    /** Rejects calls without id or name, and repeated ids. */
    static method CheckCalls(calls: seq<ToolCall>) returns (fault: Option<Failure>)
      ensures fault == CallFault(calls, {})
    {
      var callIds: set<string> := {};
      for i := 0 to |calls|
        invariant CallFault(calls, {}) == CallFault(calls[i..], callIds)
      {
        assert calls[i..][0] == calls[i] && calls[i..][1..] == calls[i + 1..];
        if calls[i].id == [] || calls[i].name == [] { return Some(MissingIdOrName); }
        if calls[i].id in callIds { return Some(DuplicateCallId(calls[i].id)); }
        callIds := callIds + {calls[i].id};
      }
      fault := None;
    }

    /** Appends one tool message for each execution; none of them can be refused. */
    static method AppendResults(session: Session, executions: seq<Execution>, ghost works: seq<Work>)
      returns (sawError: bool)
      requires session.Valid() && |executions| == |works|
      requires forall i | 0 <= i < |works| :: executions[i] == Execution(works[i].call, works[i].output)
      requires forall i | 0 <= i < |works| :: works[i].call.id != [] && works[i].call.name != []
      modifies session`messages
      ensures session.Valid()
      ensures session.messages == old(session.messages) + ResultMessages(works)
      ensures sawError == SawError(works)
    {
      sawError := false;
      for i := 0 to |executions|
        invariant session.Valid()
        invariant session.messages == old(session.messages) + ResultMessages(works)[..i]
        invariant sawError <==> exists j | 0 <= j < i :: works[j].output.isError
      {
        var call, output := executions[i].call, executions[i].output;
        sawError := sawError || output.isError;
        var message := ToolMessage(call.id, call.name, output.contents, output.isError, call.metadata);
        assert message == Ok(ResultMessages(works)[i]);
        var error := session.AppendFromClient(message.value);
      }
      assert ResultMessages(works)[..|works|] == ResultMessages(works);
    }

    /** Asks the provider once and checks its answer: the new totals, or what is wrong. */
    method Ask(session: Session, oracle: Oracle, round: size, usage: TokenUsage, toolCalls: size,
               ghost st: State, ghost before: seq<TraceEvent>)
      returns (total: Result<TokenUsage, Failure>)
      requires Valid() && st.round == round && st.usage == usage && st.toolCalls == toolCalls && round >= 1
      requires session.messages == st.history && emitted == before + st.events
      modifies this`logs, this`emitted
      ensures Valid() && |logs| == |old(logs)|
      ensures var progress := OneRound(config, oracle, st);
              total.Err? ==>
                && progress.Over? && progress.outcome == Failed(total.error)
                && progress.state.history == st.history
                && emitted + [ErrorEvent] == before + progress.state.events
      ensures total.Ok? ==>
                && Accepted(config, oracle, st)
                && AddedUsage(usage, oracle.provider(round).response.usage, round == 1) == total
                && emitted == before + (st.events + [ProviderStart(round, |st.history|)]
                                        + [ProviderEnd(round, |oracle.provider(round).response.message.calls|)])
    {
      hide AddedUsage, CallFault, WorksOf, BatchEvents, SawError, ResultMessages, Taken, ConfigOk;
      Trace(ProviderStart(round, |session.messages|));
      var answer := oracle.provider(round);
      if answer.Threw? { return Err(Thrown(answer.what)); }
      var response := answer.response;
      if !response.message.role.AssistantRole? { return Err(WrongRole); }
      var calls := response.message.calls;
      if |calls| > config.maxToolCalls - Min(toolCalls, config.maxToolCalls) { return Err(ToolCallLimit); }
      var fault := CheckCalls(calls);
      if fault.Some? { return Err(fault.value); }
      total := AddUsage(usage, response.usage, round == 1);
      if total.Err? { return; }
      Trace(ProviderEnd(round, |calls|));
      var needsAnotherRound := calls != [] || response.requiresContinuation;
      if needsAnotherRound && round == config.maxRounds { return Err(MaxRounds); }
    }

    /** One turn of the loop: a provider call, its checks, and the tools it asks for. */
    method ProviderRound(session: Session, oracle: Oracle, round: size, usage: TokenUsage, toolCalls: size,
                         ghost base: seq<Message>, ghost st: State, ghost before: seq<TraceEvent>)
      returns (step: Step)
      requires Valid() && session.Valid() && Faithful(config, oracle)
      requires StateOk(config, oracle, base, st)
      requires st.round == round && st.usage == usage && st.toolCalls == toolCalls
      requires session.messages == st.history && emitted == before + st.events
      modifies this`logs, this`emitted, session`messages
      ensures Valid() && session.Valid() && |logs| == |old(logs)|
      ensures var progress := OneRound(config, oracle, st);
              && session.messages == progress.state.history
              && (step.GoOn? ==>
                    && progress.More? && progress.state.usage == step.usage
                    && progress.state.toolCalls == step.toolCalls
                    && emitted == before + progress.state.events)
              && (step.End? ==>
                    && progress.Over? && progress.outcome == step.outcome
                    && emitted + (if step.outcome.Failed? then [ErrorEvent] else []) == before + progress.state.events)
    {
      hide StateOk, Faithful, AddedUsage, CallFault, WorksOf, BatchEvents, SawError, ResultMessages, Taken, ConfigOk;
      StateInRange(config, oracle, base, st);
      var total := Ask(session, oracle, round, usage, toolCalls, st, before);
      if total.Err? { return End(Failed(total.error)); }
      var response := oracle.provider(round).response;
      var calls := response.message.calls;
      var refused := session.AppendFromClient(response.message);
      if calls == [] && !response.requiresContinuation {
        Trace(GenerationEnd);
        return End(Returned(response.(usage := total.value, modelRounds := round, toolCalls := toolCalls)));
      }
      if calls == [] { return GoOn(total.value, toolCalls); }
      var executions := ExecuteTools(oracle, round, calls);
      var executed: size := toolCalls + |executions|;
      GoodWorks(config, oracle, round, calls);
      var sawError := AppendResults(session, executions, WorksOf(config, oracle, round, calls));
      if sawError && config.stopOnToolError {
        Trace(GenerationEnd);
        return End(Returned(response.(finish := ErrorReason, usage := total.value,
                                      modelRounds := round, toolCalls := executed)));
      }
      step := GoOn(total.value, executed);
    }

    /** A generation. It is refused without a trace of it when the input is not valid or the
        session is in use; otherwise it does exactly what `Generation.Generate` says, no
        matter which events the tracers refuse, and the session is free again at the end. */
    method Generate(session: Session, input: Message, options: GenerateOptions, oracle: Oracle)
      returns (outcome: Outcome)
      requires Valid() && session.Valid() && Faithful(config, oracle)
      modifies this`logs, this`emitted, session`messages, session`active
      ensures Valid() && session.Valid() && |logs| == |old(logs)|
      ensures !ValidInput(capabilities, input, options) || old(session.active) ==>
                && outcome == Failed(if !ValidInput(capabilities, input, options)
                                     then InvalidArgument("generate input") else SessionInUse)
                && session.messages == old(session.messages) && session.active == old(session.active)
                && emitted == old(emitted)
      ensures ValidInput(capabilities, input, options) && !old(session.active) ==>
                && !session.active
                && var (result, last) := Generation.Generate(config, oracle, old(session.messages), input);
                   && outcome == result
                   && session.messages == last.history
                   && emitted == old(emitted) + last.events
    {
      hide Faithful, ConfigOk, ValidInput, OneRound, StateOk, Taken;
      var valid := ValidateInput(capabilities, input, options);
      if !valid { return Failed(InvalidArgument("generate input")); }
      var lease := session.Acquire();
      if lease.Err? { return Failed(lease.error); }
      Trace(GenerationStart);
      assert input.role.UserRole? by { InputIsUser(capabilities, input, options); }
      var refused := session.AppendFromClient(input);
      ghost var base := session.messages;
      ghost var st := Generation.Start(old(session.messages), input);
      StartOk(config, oracle, old(session.messages), input);
      var usage := NO_USAGE;
      var toolCalls: size := 0;
      var round: size := 1;
      assert config.maxRounds >= 1 by { AtLeastOneRound(config); }
      StateInRange(config, oracle, base, st);
      while round <= config.maxRounds
        invariant Valid() && session.Valid() && |logs| == |old(logs)|
        invariant 1 <= round <= config.maxRounds
        invariant StateOk(config, oracle, base, st)
        invariant st.round == round && st.usage == usage && st.toolCalls == toolCalls
        invariant session.messages == st.history && emitted == old(emitted) + st.events
        invariant session.active && lease.value.session == session && fresh(lease.value)
        invariant Rounds(config, oracle, st) == Generation.Generate(config, oracle, old(session.messages), input)
        decreases config.maxRounds - round
      {
        RoundKeeps(config, oracle, base, st);
        var step := ProviderRound(session, oracle, round, usage, toolCalls, base, st, old(emitted));
        if step.End? {
          if step.outcome.Failed? { Trace(ErrorEvent); }
          lease.value.Destroy();
          return step.outcome;
        }
        usage, toolCalls := step.usage, step.toolCalls;
        st := OneRound(config, oracle, st).state;
        StateInRange(config, oracle, base, st);
        round := round + 1;
      }
      assert false;
    }
  }

  lemma {:induction false} AtLeastOneRound(config: Config)
    requires ConfigOk(config)
    ensures config.maxRounds >= 1
  {
  }

  lemma {:induction false} InputIsUser(capabilities: Capabilities, input: Message, options: GenerateOptions)
    requires ValidInput(capabilities, input, options)
    ensures input.role.UserRole?
  {
  }

  /** The round counter and the call count of a running generation fit their limits. */
  lemma {:induction false} StateInRange(config: Config, oracle: Oracle, base: seq<Message>, st: State)
    requires StateOk(config, oracle, base, st)
    ensures 1 <= st.round <= config.maxRounds && st.toolCalls <= config.maxToolCalls
  {
  }

  lemma {:induction false} GoodWorks(config: Config, oracle: Oracle, round: nat, calls: seq<ToolCall>)
    requires CallFault(calls, {}).None?
    ensures var works := WorksOf(config, oracle, round, calls);
            forall i | 0 <= i < |works| ::
              works[i].call == calls[i] && works[i].call.id != [] && works[i].call.name != []
  {
    hide WorkFor;
    CallFaultExact(calls, {});
  }

  lemma {:induction false} WorkAt(config: Config, oracle: Oracle, round: nat, calls: seq<ToolCall>, i: nat)
    requires i < |calls|
    ensures WorksOf(config, oracle, round, calls)[i]
            == WorkFor(config.registry, calls[i], oracle.invocation(round, i))
  {
  }

  lemma {:induction false} BatchResults(config: Config, oracle: Oracle, round: nat)
    requires ConfigOk(config) && Faithful(config, oracle) && oracle.provider(round).Replied?
    requires RunsInParallel(config, oracle.provider(round).response.message.calls)
    ensures var calls := oracle.provider(round).response.message.calls;
            var works := WorksOf(config, oracle, round, calls);
            var results := oracle.batch(round).results;
            |results| == |calls|
            && forall i | 0 <= i < |calls| :: results[i] == Execution(calls[i], works[i].output)
  {
    var calls := oracle.provider(round).response.message.calls;
    var works := WorksOf(config, oracle, round, calls);
    var setups, s, j :| ReturnedBy(setups, s, j, works, config.maxParallel, oracle.batch(round));
    ReturnedJobComplete(setups, s, j);
  }
}
