/** The generation loop as a function of what the provider and the tools do. Both are
    arbitrary, so a statement about all oracles is a statement about all runs. */
module Generation {
  import opened Json
  import opened Types
  import opened Usage
  import opened Trace
  import opened Tools
  import opened Executor
  import opened Transcript

  datatype Config = Config(
    registry: Registry, maxRounds: size, maxToolCalls: size,
    parallel: bool, maxParallel: size, stopOnToolError: bool)

  ghost predicate ConfigOk(config: Config)
  {
    config.maxRounds >= 1 && config.maxToolCalls >= 1 && config.maxParallel >= 1 && RegistryOk(config.registry)
  }

  datatype ProviderOutcome = Replied(response: Response) | Threw(what: string)

  datatype Batch = Batch(results: seq<Execution>, events: seq<TraceEvent>)

  /** What the provider does in each round, what invoking the tool of each call comes to,
      and what the parallel executor returns. */
  datatype Oracle = Oracle(
    provider: nat -> ProviderOutcome, invocation: (nat, nat) -> Invocation, batch: nat -> Batch)

  datatype Outcome = Returned(response: Response) | Failed(failure: Failure)

  /** Where a run stands: the next round, the history, the totals so far, the events
      reported and the histories handed to the provider. */
  datatype State = State(
    round: nat, history: seq<Message>, usage: TokenUsage, toolCalls: nat,
    events: seq<TraceEvent>, requests: seq<seq<Message>>)

  datatype Progress = More(state: State) | Over(outcome: Outcome, state: State)

  // ---- one round ----

  function WorksOf(config: Config, oracle: Oracle, round: nat, calls: seq<ToolCall>): (works: seq<Work>)
    ensures |works| == |calls| && forall i | 0 <= i < |calls| :: works[i].call == calls[i]
  {
    var works := seq(|calls|, i requires 0 <= i < |calls| =>
                                WorkFor(config.registry, calls[i], oracle.invocation(round, i)));
    assert forall i | 0 <= i < |calls| :: works[i].call == calls[i] by {
      forall i | 0 <= i < |calls| ensures works[i].call == calls[i] {
        assert works[i] == WorkFor(config.registry, calls[i], oracle.invocation(round, i));
      }
    }
    works
  }

  predicate RunsInParallel(config: Config, calls: seq<ToolCall>)
  {
    config.parallel && |calls| >= 2
  }

  /** What one-by-one execution reports. */
  function SequentialEvents(works: seq<Work>): (events: seq<TraceEvent>)
  {
    if works == [] then []
    else
      var n := |works| - 1;
      SequentialEvents(works[..n])
      + [ToolStart(works[n].call.id), ToolEnd(works[n].call.id, works[n].output.isError)]
  }

  function BatchEvents(config: Config, oracle: Oracle, round: nat, calls: seq<ToolCall>): (events: seq<TraceEvent>)
  {
    if RunsInParallel(config, calls) then oracle.batch(round).events
    else SequentialEvents(WorksOf(config, oracle, round, calls))
  }

  /** The batch is what some run of the executor protocol returns for these calls, whatever
      other jobs share its tools. */
  ghost predicate ExecutedBySomeRun(works: seq<Work>, maxParallel: nat, batch: Batch)
  {
    exists setups, s, j :: ReturnedBy(setups, s, j, works, maxParallel, batch)
  }

  /** In a reachable state job `j` executes these calls and has returned the batch. */
  ghost predicate ReturnedBy(setups: seq<Setup>, s: System, j: nat, works: seq<Work>, maxParallel: nat, batch: Batch)
  {
    && Reachable(setups, s) && j < |s.jobs| && j < |setups|
    && setups[j] == Setup(works, true, maxParallel)
    && s.jobs[j].phase.Done?
    && batch == Batch(s.jobs[j].results, s.jobs[j].events)
  }

  /** There always is such a batch. */
  lemma {:induction false} SomeRunExecutes(works: seq<Work>, maxParallel: nat) returns (batch: Batch)
    requires maxParallel >= 1
    ensures ExecutedBySomeRun(works, maxParallel, batch)
  {
    var setups := [Setup(works, true, maxParallel)];
    assert Run(Initial(setups), []) == Some(Initial(setups));
    var schedule := RunsToCompletion(setups, []);
    var s := Run(Initial(setups), schedule).value;
    hide Run, Initial;
    assert |s.jobs| == 1 && s.jobs[0].phase.Done?;
    batch := Batch(s.jobs[0].results, s.jobs[0].events);
    assert ReturnedBy(setups, s, 0, works, maxParallel, batch);
  }

  ghost predicate Faithful(config: Config, oracle: Oracle)
  {
    forall round: nat | oracle.provider(round).Replied? ::
      var calls := oracle.provider(round).response.message.calls;
      RunsInParallel(config, calls) ==>
        ExecutedBySomeRun(WorksOf(config, oracle, round, calls), config.maxParallel, oracle.batch(round))
  }

  /** The first call that has no id or name, or repeats an id. */
  function CallFault(calls: seq<ToolCall>, seen: set<string>): (fault: Option<Failure>)
  {
    if calls == [] then None
    else if calls[0].id == [] || calls[0].name == [] then Some(MissingIdOrName)
    else if calls[0].id in seen then Some(DuplicateCallId(calls[0].id))
    else CallFault(calls[1..], seen + {calls[0].id})
  }

  predicate GoodCalls(calls: seq<ToolCall>)
  {
    && (forall i | 0 <= i < |calls| :: calls[i].id != [] && calls[i].name != [])
    && (forall i, j | 0 <= i < j < |calls| :: calls[i].id != calls[j].id)
  }

  lemma {:induction false} CallFaultExact(calls: seq<ToolCall>, seen: set<string>)
    ensures CallFault(calls, seen).None?
            <==> GoodCalls(calls) && forall i | 0 <= i < |calls| :: calls[i].id !in seen
  {
    if calls != [] {
      CallFaultExact(calls[1..], seen + {calls[0].id});
      assert forall i | 0 < i < |calls| :: calls[i] == calls[1..][i - 1];
      if GoodCalls(calls) {
        assert forall i | 0 <= i < |calls[1..]| :: calls[1..][i].id != calls[0].id;
      }
      if GoodCalls(calls[1..]) && forall i | 0 <= i < |calls[1..]| :: calls[1..][i].id !in seen + {calls[0].id} {
        forall i, j | 0 <= i < j < |calls| ensures calls[i].id != calls[j].id {
          assert calls[j] == calls[1..][j - 1];
        }
      }
    }
  }

  function ResultMessage(work: Work): (message: Message)
  {
    Message(ToolRole, work.output.contents, [], work.call.id, work.call.name, work.output.isError, work.call.metadata)
  }

  function ResultMessages(works: seq<Work>): (messages: seq<Message>)
    ensures |messages| == |works|
  {
    seq(|works|, i requires 0 <= i < |works| => ResultMessage(works[i]))
  }

  predicate SawError(works: seq<Work>)
  {
    exists i | 0 <= i < |works| :: works[i].output.isError
  }

  function OneRound(config: Config, oracle: Oracle, st: State): (progress: Progress)
    requires st.round >= 1
  {
    var asked := st.(requests := st.requests + [st.history],
                     events := st.events + [ProviderStart(st.round, |st.history|)]);
    match oracle.provider(st.round)
    case Threw(what) => Fail(asked, Thrown(what))
    case Replied(response) =>
      var calls := response.message.calls;
      var usage := AddedUsage(st.usage, response.usage, st.round == 1);
      if !response.message.role.AssistantRole? then Fail(asked, WrongRole)
      else if |calls| > config.maxToolCalls - Min(st.toolCalls, config.maxToolCalls) then Fail(asked, ToolCallLimit)
      else if CallFault(calls, {}).Some? then Fail(asked, CallFault(calls, {}).value)
      else if usage.Err? then Fail(asked, usage.error)
      else
        var answered := asked.(usage := usage.value, events := asked.events + [ProviderEnd(st.round, |calls|)]);
        if (calls != [] || response.requiresContinuation) && st.round == config.maxRounds
        then Fail(answered, MaxRounds)
        else
          var said := answered.(history := st.history + [response.message]);
          if calls == [] && !response.requiresContinuation
          then Finish(said, response)
          else if calls == [] then More(said.(round := st.round + 1))
          else
            var works := WorksOf(config, oracle, st.round, calls);
            var executed := said.(history := said.history + ResultMessages(works),
                                  toolCalls := st.toolCalls + |calls|,
                                  events := said.events + BatchEvents(config, oracle, st.round, calls));
            if SawError(works) && config.stopOnToolError
            then Finish(executed, response.(finish := ErrorReason))
            else More(executed.(round := st.round + 1))
  }

  function Fail(st: State, failure: Failure): (progress: Progress)
  {
    Over(Failed(failure), st.(events := st.events + [ErrorEvent]))
  }

  function Finish(st: State, response: Response): (progress: Progress)
  {
    Over(Returned(response.(usage := st.usage, modelRounds := st.round, toolCalls := st.toolCalls)),
         st.(events := st.events + [GenerationEnd]))
  }

  /** The loop from a given state on; past the last allowed round it would give up. */
  function Rounds(config: Config, oracle: Oracle, st: State): (end: (Outcome, State))
    requires 1 <= st.round <= config.maxRounds + 1
    decreases config.maxRounds + 1 - st.round
  {
    if st.round > config.maxRounds then (Failed(MaxRounds), st.(events := st.events + [ErrorEvent]))
    else
      match OneRound(config, oracle, st)
      case Over(outcome, last) => (outcome, last)
      case More(next) => Rounds(config, oracle, next)
  }

  function Start(history: seq<Message>, input: Message): (st: State)
  {
    State(1, history + [input], NO_USAGE, 0, [GenerationStart], [])
  }

  /** A whole run on a session with the given history. */
  function Generate(config: Config, oracle: Oracle, history: seq<Message>, input: Message): (end: (Outcome, State))
    requires config.maxRounds >= 1
  {
    Rounds(config, oracle, Start(history, input))
  }

  // ---- what holds before every round ----

  /** The usage reports of the first `n` rounds. */
  function UsagesOf(oracle: Oracle, n: nat): (usages: seq<TokenUsage>)
    requires forall k | 1 <= k <= n :: oracle.provider(k).Replied?
    ensures |usages| == n
  {
    seq(n, i requires 0 <= i < n => oracle.provider(i + 1).response.usage)
  }

  /** What one answered round adds to the history: the provider's message, and the results
      the tools gave for its calls. */
  function SaidIn(config: Config, oracle: Oracle, round: nat): (messages: seq<Message>)
  {
    match oracle.provider(round)
    case Threw(_) => []
    case Replied(response) =>
      [response.message] + ResultMessages(WorksOf(config, oracle, round, response.message.calls))
  }

  /** And what the first `n` rounds add. */
  function Said(config: Config, oracle: Oracle, n: nat): (messages: seq<Message>)
  {
    if n == 0 then [] else Said(config, oracle, n - 1) + SaidIn(config, oracle, n)
  }

  /** The provider's answer in a round passes the checks on its role and its calls. */
  ghost predicate SpeaksWell(oracle: Oracle, round: nat)
  {
    && oracle.provider(round).Replied?
    && oracle.provider(round).response.message.role.AssistantRole?
    && GoodCalls(oracle.provider(round).response.message.calls)
  }

  /** An answer ends the run if it asks for nothing more, or if a tool fails and failures are
      to stop it. */
  predicate Ends(config: Config, oracle: Oracle, round: nat)
    requires oracle.provider(round).Replied?
  {
    var response := oracle.provider(round).response;
    || (response.message.calls == [] && !response.requiresContinuation)
    || (config.stopOnToolError
        && exists i | 0 < i < |SaidIn(config, oracle, round)| :: SaidIn(config, oracle, round)[i].isError)
  }

  /** After `n` answered rounds the history is the base and what these rounds said, message by
      message, and each request was what had been said before it. */
  ghost predicate Spoken(config: Config, oracle: Oracle, base: seq<Message>, n: nat, history: seq<Message>,
                         requests: seq<seq<Message>>)
  {
    && history == base + Said(config, oracle, n)
    && forall i | 0 <= i < |requests| :: requests[i] == base + Said(config, oracle, i)
  }

  /** The first `n` rounds were answered well, and none of the answers ended the run. */
  ghost predicate WentOn(config: Config, oracle: Oracle, n: nat)
  {
    forall k | 1 <= k <= n :: SpeaksWell(oracle, k) && !Ends(config, oracle, k)
  }

  ghost predicate HistoryOk(base: seq<Message>, history: seq<Message>)
  {
    base <= history && Complete(history[|base|..])
  }

  ghost predicate UsageOk(oracle: Oracle, n: nat, usage: TokenUsage)
  {
    && (forall k | 1 <= k <= n :: oracle.provider(k).Replied?)
    && Accumulated(UsagesOf(oracle, n)) == Ok(usage)
  }

  ghost predicate RequestsOk(base: seq<Message>, requests: seq<seq<Message>>, history: seq<Message>)
  {
    && (forall i | 0 <= i < |requests| :: HistoryOk(base, requests[i]) && requests[i] < history)
    && (forall i, j | 0 <= i < j < |requests| :: requests[i] < requests[j])
  }

  ghost predicate TraceOk(events: seq<TraceEvent>, round: nat)
  {
    var monitor := ObserveAll(Fresh, events);
    if round == 1 then monitor == Opened
    else
      monitor.Answered? && monitor.round == round - 1
      && monitor.calls.running == {} && |monitor.calls.finished| == monitor.expected
  }

  ghost predicate StateOk(config: Config, oracle: Oracle, base: seq<Message>, st: State)
  {
    && 1 <= st.round <= config.maxRounds
    && HistoryOk(base, st.history)
    && |st.history| == |base| + (st.round - 1) + st.toolCalls
    && st.toolCalls <= config.maxToolCalls
    && UsageOk(oracle, st.round - 1, st.usage)
    && |st.requests| == st.round - 1 && RequestsOk(base, st.requests, st.history)
    && TraceOk(st.events, st.round)
    && Spoken(config, oracle, base, st.round - 1, st.history, st.requests)
    && WentOn(config, oracle, st.round - 1)
  }

  /** The rounds that a run has carried through: all it asked for, but the one it failed in. */
  function Carried(outcome: Outcome, last: State): (n: int)
  {
    if outcome.Returned? then |last.requests| else |last.requests| - 1
  }

  /** What every exit leaves behind. */
  ghost predicate EndOk(config: Config, oracle: Oracle, base: seq<Message>, outcome: Outcome, last: State)
  {
    var n := Carried(outcome, last);
    && 1 <= |last.requests| <= config.maxRounds
    && Spoken(config, oracle, base, n, last.history, last.requests)
    && WentOn(config, oracle, |last.requests| - 1)
    && HistoryOk(base, last.history)
    && (forall i | 0 <= i < |last.requests| ::
          HistoryOk(base, last.requests[i]) && last.requests[i] <= last.history)
    && (forall i, j | 0 <= i < j < |last.requests| :: last.requests[i] < last.requests[j])
    && last.toolCalls <= config.maxToolCalls
    && |last.history| == |base| + n + last.toolCalls
    && WellBracketed(last.events)
    && (outcome.Returned? ==> ResponseOk(config, oracle, outcome.response, last))
  }

  /** A returned response is the provider's last one, which ended the run, with the counts of
      the whole run. */
  ghost predicate ResponseOk(config: Config, oracle: Oracle, response: Response, last: State)
  {
    var n := |last.requests|;
    && UsageOk(oracle, n, response.usage)
    && SpeaksWell(oracle, n) && Ends(config, oracle, n)
    && var given := oracle.provider(n).response;
       response == given.(finish := if given.message.calls == [] then given.finish else ErrorReason,
                          usage := response.usage, modelRounds := n, toolCalls := last.toolCalls)
  }

  lemma {:induction false} StartOk(config: Config, oracle: Oracle, history: seq<Message>, input: Message)
    requires ConfigOk(config)
    ensures StateOk(config, oracle, history + [input], Start(history, input))
  {
    var base := history + [input];
    assert base[|base|..] == [];
    assert [GenerationStart][..0] == [];
    assert ObserveAll(Fresh, [GenerationStart]) == Opened;
  }

  // ---- the events of one batch ----

  lemma {:induction false} SequentialEventsInOrder(works: seq<Work>)
    requires DistinctIds(works)
    ensures AfterToolEvents(NO_CALLS, SequentialEvents(works)) == Some(Calls({}, Ids(works)))
  {
    if works == [] {
      assert Ids(works) == {};
    } else {
      var n := |works| - 1;
      var id := works[n].call.id;
      IdsOfFront(works);
      SequentialEventsInOrder(works[..n]);
      hide Ids, DistinctIds;
      var before := SequentialEvents(works[..n]);
      var start, end := ToolStart(id), ToolEnd(id, works[n].output.isError);
      assert SequentialEvents(works) == before + [start, end];
      assert (before + [start, end])[..|before| + 1] == before + [start];
      assert (before + [start])[..|before|] == before;
      assert ({} + {id}) - {id} == {};
    }
  }

  /** Ids of distinct calls are as many as the calls. */
  lemma {:induction false} DistinctIdsCount(works: seq<Work>)
    requires DistinctIds(works)
    ensures |Ids(works)| == |works|
  {
    if works == [] {
      assert Ids(works) == {};
    } else {
      IdsOfFront(works);
      DistinctIdsCount(works[..|works| - 1]);
    }
  }

  lemma {:induction false} BatchEventsInOrder(config: Config, oracle: Oracle, round: nat)
    requires ConfigOk(config) && Faithful(config, oracle) && oracle.provider(round).Replied?
    requires GoodCalls(oracle.provider(round).response.message.calls)
    ensures var calls := oracle.provider(round).response.message.calls;
            var works := WorksOf(config, oracle, round, calls);
            AfterToolEvents(NO_CALLS, BatchEvents(config, oracle, round, calls))
            == Some(Calls({}, Ids(works)))
            && |Ids(works)| == |calls|
  {
    hide AfterToolEvents, Admit, Conclude, WorkFor, Ids;
    var calls := oracle.provider(round).response.message.calls;
    var works := WorksOf(config, oracle, round, calls);
    assert forall i | 0 <= i < |works| :: works[i].call == calls[i];
    DistinctIdsCount(works);
    if RunsInParallel(config, calls) {
      var setups, s, j :| ReturnedBy(setups, s, j, works, config.maxParallel, oracle.batch(round));
      ReturnedJobComplete(setups, s, j);
    } else {
      SequentialEventsInOrder(works);
    }
  }

  // ---- every round keeps what holds, and every exit leaves what it should ----

  lemma {:induction false} HistoryGrows(base: seq<Message>, history: seq<Message>, more: seq<Message>)
    requires HistoryOk(base, history) && Complete(more)
    ensures HistoryOk(base, history + more)
  {
    hide Complete;
    assert (history + more)[|base|..] == history[|base|..] + more;
    CompleteAppend(history[|base|..], more);
  }

  lemma {:induction false} UsageGrows(oracle: Oracle, n: nat, usage: TokenUsage, next: TokenUsage)
    requires UsageOk(oracle, n, usage) && oracle.provider(n + 1).Replied?
    requires AddedUsage(usage, oracle.provider(n + 1).response.usage, n == 0) == Ok(next)
    ensures UsageOk(oracle, n + 1, next)
  {
    hide AddedUsage;
    var usages := UsagesOf(oracle, n + 1);
    assert usages[..n] == UsagesOf(oracle, n);
    assert usages[n] == oracle.provider(n + 1).response.usage;
  }

  lemma {:induction false} RequestsGrow(base: seq<Message>, requests: seq<seq<Message>>, history: seq<Message>,
                                        more: seq<Message>)
    requires RequestsOk(base, requests, history) && HistoryOk(base, history) && more != []
    ensures RequestsOk(base, requests + [history], history + more)
  {
    hide HistoryOk;
  }

  /** The provider call opens a round in the trace, its answer makes the round's calls due. */
  lemma {:induction false} TraceRound(st: State, callCount: nat)
    requires st.round >= 1 && TraceOk(st.events, st.round)
    ensures var asked := st.events + [ProviderStart(st.round, |st.history|)];
            && ObserveAll(Fresh, asked) == Calling(st.round)
            && ObserveAll(Fresh, asked + [ProviderEnd(st.round, callCount)])
               == Answered(st.round, callCount, NO_CALLS)
  {
    hide ObserveAll;
    var start := ProviderStart(st.round, |st.history|);
    ObserveOne(Fresh, st.events, start);
    ObserveOne(Fresh, st.events + [start], ProviderEnd(st.round, callCount));
  }

  lemma {:induction false} TraceBatch(config: Config, oracle: Oracle, st: State, events: seq<TraceEvent>)
    requires st.round >= 1
    requires ConfigOk(config) && Faithful(config, oracle) && oracle.provider(st.round).Replied?
    requires GoodCalls(oracle.provider(st.round).response.message.calls)
    requires var calls := oracle.provider(st.round).response.message.calls;
             ObserveAll(Fresh, events) == Answered(st.round, |calls|, NO_CALLS)
    ensures var calls := oracle.provider(st.round).response.message.calls;
            TraceOk(events + BatchEvents(config, oracle, st.round, calls), st.round + 1)
  {
    hide ObserveAll, Faithful, BatchEvents, AfterToolEvents, ConfigOk, GoodCalls;
    var calls := oracle.provider(st.round).response.message.calls;
    BatchEventsInOrder(config, oracle, st.round);
    ObserveAppend(Fresh, events, BatchEvents(config, oracle, st.round, calls));
    ObserveToolEvents(st.round, |calls|, NO_CALLS, BatchEvents(config, oracle, st.round, calls));
  }

  lemma {:induction false} TraceCloses(events: seq<TraceEvent>, round: nat)
    requires round >= 2 && TraceOk(events, round)
    ensures WellBracketed(events + [GenerationEnd])
  {
    hide ObserveAll;
    ObserveOne(Fresh, events, GenerationEnd);
  }

  lemma {:induction false} TraceFails(events: seq<TraceEvent>)
    requires ObserveAll(Fresh, events).Calling?
             || (ObserveAll(Fresh, events).Answered? && ObserveAll(Fresh, events).calls == NO_CALLS)
    ensures WellBracketed(events + [ErrorEvent])
  {
    hide ObserveAll;
    ObserveOne(Fresh, events, ErrorEvent);
  }

  lemma {:induction false} ResultsAnswer(works: seq<Work>, calls: seq<ToolCall>)
    requires |works| == |calls| && forall i | 0 <= i < |calls| :: works[i].call == calls[i]
    ensures Answers(calls, ResultMessages(works))
  {
  }

  /** What a failing round reports: that it asked, perhaps that it was answered, and the error. */
  lemma {:induction false} FailureEvents(config: Config, oracle: Oracle, st: State)
    requires st.round >= 1
    requires OneRound(config, oracle, st).Over? && OneRound(config, oracle, st).outcome.Failed?
    ensures var after := OneRound(config, oracle, st).state;
            var start := ProviderStart(st.round, |st.history|);
            && (after.events == st.events + [start] + [ErrorEvent]
                || (oracle.provider(st.round).Replied?
                    && after.events == st.events + [start]
                                       + [ProviderEnd(st.round, |oracle.provider(st.round).response.message.calls|)]
                                       + [ErrorEvent]))
            && after.history == st.history && after.toolCalls == st.toolCalls
            && after.requests == st.requests + [st.history]
  {
    hide AddedUsage, WorksOf, BatchEvents, CallFault, SawError;
  }

  /** A round that fails leaves the history as it found it. */
  lemma {:induction false} RoundFails(config: Config, oracle: Oracle, base: seq<Message>, st: State)
    requires ConfigOk(config) && StateOk(config, oracle, base, st)
    requires OneRound(config, oracle, st).Over? && OneRound(config, oracle, st).outcome.Failed?
    ensures EndOk(config, oracle, base, OneRound(config, oracle, st).outcome, OneRound(config, oracle, st).state)
    ensures OneRound(config, oracle, st).state.history == st.history
    ensures OneRound(config, oracle, st).state.toolCalls == st.toolCalls
  {
    hide Spoken, WentOn, Said;
    FailureEvents(config, oracle, st);
    SpokenAsks(config, oracle, base, st.round - 1, st.history, st.requests);
    hide OneRound, HistoryOk, UsageOk, TraceOk, ConfigOk, ResponseOk;
    var start := ProviderStart(st.round, |st.history|);
    var count := if oracle.provider(st.round).Replied? then |oracle.provider(st.round).response.message.calls| else 0;
    TraceRound(st, count);
    hide ObserveAll, WellBracketed;
    var over := OneRound(config, oracle, st);
    if over.state.events == st.events + [start] + [ErrorEvent] {
      TraceFails(st.events + [start]);
    } else {
      TraceFails(st.events + [start] + [ProviderEnd(st.round, count)]);
    }
  }

  /** A round that neither fails nor ends without calls appends the answer and the
      results of exactly its calls. */
  lemma {:induction false} RoundAppends(config: Config, oracle: Oracle, base: seq<Message>, st: State, works: seq<Work>)
    requires StateOk(config, oracle, base, st) && oracle.provider(st.round).Replied?
    requires oracle.provider(st.round).response.message.role.AssistantRole?
    requires var calls := oracle.provider(st.round).response.message.calls;
             |works| == |calls| && forall i | 0 <= i < |calls| :: works[i].call == calls[i]
    ensures var message := oracle.provider(st.round).response.message;
            var history := st.history + [message] + ResultMessages(works);
            && HistoryOk(base, history)
            && RequestsOk(base, st.requests + [st.history], history)
            && |history| == |st.history| + 1 + |message.calls|
  {
    hide HistoryOk, UsageOk, TraceOk;
    var message := oracle.provider(st.round).response.message;
    ResultsAnswer(works, message.calls);
    CompleteRound(message, ResultMessages(works));
    assert st.history + [message] + ResultMessages(works) == st.history + ([message] + ResultMessages(works));
    HistoryGrows(base, st.history, [message] + ResultMessages(works));
    RequestsGrow(base, st.requests, st.history, [message] + ResultMessages(works));
  }

  ghost predicate Accepted(config: Config, oracle: Oracle, st: State)
  {
    && oracle.provider(st.round).Replied?
    && oracle.provider(st.round).response.message.role.AssistantRole?
    && |oracle.provider(st.round).response.message.calls|
       <= config.maxToolCalls - Min(st.toolCalls, config.maxToolCalls)
    && CallFault(oracle.provider(st.round).response.message.calls, {}).None?
    && AddedUsage(st.usage, oracle.provider(st.round).response.usage, st.round == 1).Ok?
    && !((oracle.provider(st.round).response.message.calls != []
          || oracle.provider(st.round).response.requiresContinuation) && st.round == config.maxRounds)
  }

  /** The state after an accepted round, before the exit that ends it is chosen. */
  ghost function AfterRound(config: Config, oracle: Oracle, st: State): (after: State)
    requires Accepted(config, oracle, st)
  {
    var response := oracle.provider(st.round).response;
    var calls := response.message.calls;
    var works := WorksOf(config, oracle, st.round, calls);
    State(st.round + 1,
          st.history + [response.message] + ResultMessages(works),
          AddedUsage(st.usage, response.usage, st.round == 1).value,
          st.toolCalls + |calls|,
          st.events + [ProviderStart(st.round, |st.history|)] + [ProviderEnd(st.round, |calls|)]
          + BatchEvents(config, oracle, st.round, calls),
          st.requests + [st.history])
  }

  /** Each way a round can go on or end well, in terms of the state after it. */
  lemma {:induction false} RoundAccepted(config: Config, oracle: Oracle, st: State)
    requires st.round >= 1
    ensures var progress := OneRound(config, oracle, st);
            && (Accepted(config, oracle, st) <==> progress.More? || progress.outcome.Returned?)
            && (progress.More? ==> progress.state == AfterRound(config, oracle, st))
            && (progress.Over? && progress.outcome.Returned? ==>
                  && progress.state == AfterRound(config, oracle, st).(round := st.round,
                                         events := AfterRound(config, oracle, st).events + [GenerationEnd])
                  && progress.outcome.response.usage == progress.state.usage
                  && progress.outcome.response.modelRounds == st.round
                  && progress.outcome.response.toolCalls == progress.state.toolCalls)
  {
    hide AddedUsage, CallFault, SawError;
    if Accepted(config, oracle, st) {
      var calls := oracle.provider(st.round).response.message.calls;
      if calls == [] {
        var works := WorksOf(config, oracle, st.round, calls);
        assert ResultMessages(works) == [];
        assert BatchEvents(config, oracle, st.round, calls) == [];
        var after := AfterRound(config, oracle, st);
        assert after.history == st.history + [oracle.provider(st.round).response.message];
        assert after.events == st.events + [ProviderStart(st.round, |st.history|)] + [ProviderEnd(st.round, |calls|)];
      }
    }
  }

  /** A tool failed exactly when one of the result messages is marked as an error. */
  lemma {:induction false} SawErrorSaid(config: Config, oracle: Oracle, round: nat)
    requires oracle.provider(round).Replied?
    ensures SawError(WorksOf(config, oracle, round, oracle.provider(round).response.message.calls))
            <==> exists i | 0 < i < |SaidIn(config, oracle, round)| :: SaidIn(config, oracle, round)[i].isError
  {
    var works := WorksOf(config, oracle, round, oracle.provider(round).response.message.calls);
    var said := SaidIn(config, oracle, round);
    hide WorksOf;
    assert forall i | 0 <= i < |works| :: said[1 + i] == ResultMessage(works[i]);
    if i :| 0 <= i < |works| && works[i].output.isError { assert said[1 + i].isError; }
    if i :| 0 < i < |said| && said[i].isError { assert said[i] == ResultMessage(works[i - 1]); }
  }

  /** Which of the two it is, and what is returned. */
  lemma {:induction false} RoundEnds(config: Config, oracle: Oracle, st: State)
    requires st.round >= 1 && Accepted(config, oracle, st)
    ensures OneRound(config, oracle, st).More? <==> !Ends(config, oracle, st.round)
    ensures OneRound(config, oracle, st).Over? && OneRound(config, oracle, st).outcome.Returned? ==>
              var given, response := oracle.provider(st.round).response, OneRound(config, oracle, st).outcome.response;
              response == given.(finish := if given.message.calls == [] then given.finish else ErrorReason,
                                 usage := response.usage, modelRounds := response.modelRounds,
                                 toolCalls := response.toolCalls)
  {
    hide AddedUsage, CallFault, BatchEvents, SawError;
    RoundAccepted(config, oracle, st);
    SawErrorSaid(config, oracle, st.round);
  }

  lemma {:induction false} SaidNext(config: Config, oracle: Oracle, base: seq<Message>, round: nat,
                                    message: Message, results: seq<Message>)
    requires round >= 1 && SaidIn(config, oracle, round) == [message] + results
    ensures base + Said(config, oracle, round) == base + Said(config, oracle, round - 1) + [message] + results
  {
    hide SaidIn;
    var said := Said(config, oracle, round - 1);
    assert Said(config, oracle, round) == said + ([message] + results);
    hide Said;
    assert base + said + [message] + results == base + (said + ([message] + results));
  }

  /** A round carried through says what it has to, behind what was said before. */
  lemma {:induction false} SpokenGrows(config: Config, oracle: Oracle, base: seq<Message>, st: State)
    requires StateOk(config, oracle, base, st) && Accepted(config, oracle, st)
    ensures var after := AfterRound(config, oracle, st);
            Spoken(config, oracle, base, st.round, after.history, after.requests)
  {
    hide HistoryOk, UsageOk, TraceOk, RequestsOk, WentOn, WorksOf, ResultMessages, BatchEvents, AddedUsage, CallFault;
    hide Said;
    var message := oracle.provider(st.round).response.message;
    var results := ResultMessages(WorksOf(config, oracle, st.round, message.calls));
    SpokenAsks(config, oracle, base, st.round - 1, st.history, st.requests);
    SaidNext(config, oracle, base, st.round, message, results);
    assert AfterRound(config, oracle, st).history == st.history + [message] + results;
  }

  lemma {:induction false} SpokenAsks(config: Config, oracle: Oracle, base: seq<Message>, n: nat,
                                      history: seq<Message>, requests: seq<seq<Message>>)
    requires Spoken(config, oracle, base, n, history, requests) && |requests| == n
    ensures Spoken(config, oracle, base, n, history, requests + [history])
  {
    hide Said;
  }

  lemma {:induction false} WentOnFurther(config: Config, oracle: Oracle, n: nat)
    requires WentOn(config, oracle, n) && SpeaksWell(oracle, n + 1) && !Ends(config, oracle, n + 1)
    ensures WentOn(config, oracle, n + 1)
  {
    hide SpeaksWell, Ends;
  }

  lemma {:induction false} AcceptedSpeaksWell(config: Config, oracle: Oracle, st: State)
    requires Accepted(config, oracle, st)
    ensures SpeaksWell(oracle, st.round)
  {
    CallFaultExact(oracle.provider(st.round).response.message.calls, {});
  }

  lemma {:induction false} AcceptedKeeps(config: Config, oracle: Oracle, base: seq<Message>, st: State)
    requires ConfigOk(config) && Faithful(config, oracle) && StateOk(config, oracle, base, st)
    requires Accepted(config, oracle, st)
    ensures var after := AfterRound(config, oracle, st);
            && after.round == st.round + 1
            && HistoryOk(base, after.history)
            && |after.history| == |base| + st.round + after.toolCalls
            && after.toolCalls <= config.maxToolCalls
            && UsageOk(oracle, st.round, after.usage)
            && |after.requests| == st.round && RequestsOk(base, after.requests, after.history)
            && TraceOk(after.events, st.round + 1)
  {
    hide Spoken, WentOn;
    var response := oracle.provider(st.round).response;
    var calls := response.message.calls;
    var works := WorksOf(config, oracle, st.round, calls);
    CallFaultExact(calls, {});
    TraceRound(st, |calls|);
    hide HistoryOk, UsageOk, RequestsOk, AddedUsage, ConfigOk, Faithful, WorksOf, BatchEvents, CallFault;
    hide ObserveAll, TraceOk;
    RoundAppends(config, oracle, base, st, works);
    UsageGrows(oracle, st.round - 1, st.usage, AfterRound(config, oracle, st).usage);
    TraceBatch(config, oracle, st,
               st.events + [ProviderStart(st.round, |st.history|)] + [ProviderEnd(st.round, |calls|)]);
  }

  /** Before the last allowed round the run goes on at most to the next one, and every
      exit is in order. In particular the loop never gets past its last round. */
  lemma {:induction false} RoundKeeps(config: Config, oracle: Oracle, base: seq<Message>, st: State)
    requires ConfigOk(config) && Faithful(config, oracle) && StateOk(config, oracle, base, st)
    ensures match OneRound(config, oracle, st)
            case More(next) => StateOk(config, oracle, base, next) && next.round == st.round + 1
            case Over(outcome, last) => EndOk(config, oracle, base, outcome, last) && |last.requests| == st.round
  {
    hide OneRound, AfterRound, Accepted, HistoryOk, UsageOk, TraceOk, WellBracketed, ConfigOk, Faithful;
    hide Spoken, WentOn, SpeaksWell, Ends;
    RoundAccepted(config, oracle, st);
    var progress := OneRound(config, oracle, st);
    if Accepted(config, oracle, st) {
      AcceptedKeeps(config, oracle, base, st);
      TraceCloses(AfterRound(config, oracle, st).events, st.round + 1);
      AcceptedSpeaksWell(config, oracle, st);
      SpokenGrows(config, oracle, base, st);
      RoundEnds(config, oracle, st);
      if progress.More? {
        RoundLeavesRoom(config, oracle, st);
        WentOnFurther(config, oracle, st.round - 1);
      }
    } else {
      RoundFails(config, oracle, base, st);
      RoundAsksOnce(config, oracle, st);
    }
  }

  lemma {:induction false} RoundLeavesRoom(config: Config, oracle: Oracle, st: State)
    requires st.round >= 1 && st.round <= config.maxRounds
    requires OneRound(config, oracle, st).More?
    ensures st.round < config.maxRounds
  {
    hide AddedUsage, CallFault, SawError, WorksOf, BatchEvents;
  }

  lemma {:induction false} FailureKeepsHistory(config: Config, oracle: Oracle, st: State)
    requires st.round >= 1 && !Accepted(config, oracle, st)
    ensures OneRound(config, oracle, st).state.history == st.history
  {
    hide AddedUsage, CallFault, SawError, WorksOf, BatchEvents;
  }

  lemma {:induction false} RoundAsksOnce(config: Config, oracle: Oracle, st: State)
    requires st.round >= 1
    ensures OneRound(config, oracle, st).state.requests == st.requests + [st.history]
  {
    hide AddedUsage, CallFault, SawError, WorksOf, BatchEvents;
  }

  // ---- whole runs ----

  lemma {:induction false} RoundsEnd(config: Config, oracle: Oracle, base: seq<Message>, st: State)
    requires ConfigOk(config) && Faithful(config, oracle) && StateOk(config, oracle, base, st)
    ensures var (outcome, last) := Rounds(config, oracle, st);
            EndOk(config, oracle, base, outcome, last)
    decreases config.maxRounds - st.round
  {
    RoundKeeps(config, oracle, base, st);
    hide OneRound, EndOk, HistoryOk, UsageOk, TraceOk, Faithful, ConfigOk, RequestsOk;
    match OneRound(config, oracle, st)
    case More(next) => RoundsEnd(config, oracle, base, next);
    case Over(_, _) =>
  }

  /** Every run, whatever the provider answers and the tools do, returning or failing:
      behind the input come, message by message, what the provider said in each round carried
      through and what the tools gave for its calls, and nothing else; each history handed to
      the provider is what had been said before it, and there are no more than the rounds
      allowed; a run goes on exactly until an answer ends it or a round fails; the trace is well
      bracketed; and a returned response is the last answer, with the counts of all rounds. */
  lemma {:induction false} EveryRun(config: Config, oracle: Oracle, history: seq<Message>, input: Message)
    requires ConfigOk(config) && Faithful(config, oracle)
    ensures var (outcome, last) := Generate(config, oracle, history, input);
            EndOk(config, oracle, history + [input], outcome, last)
  {
    StartOk(config, oracle, history, input);
    RoundsEnd(config, oracle, history + [input], Start(history, input));
  }

  lemma {:induction false} SaidInShape(config: Config, oracle: Oracle, round: nat)
    ensures SaidIn(config, oracle, round) != [] ==>
              && oracle.provider(round).Replied?
              && SaidIn(config, oracle, round)[0] == oracle.provider(round).response.message
    ensures forall i | 1 <= i < |SaidIn(config, oracle, round)| :: SaidIn(config, oracle, round)[i].role.ToolRole?
  {
    hide WorksOf;
  }

  /** Where a model message stands among what a run says, there its round begins. */
  lemma {:induction false} SaidPlace(config: Config, oracle: Oracle, n: nat, p: nat) returns (round: nat)
    requires p < |Said(config, oracle, n)| && Said(config, oracle, n)[p].role.AssistantRole?
    ensures 1 <= round <= n && p == |Said(config, oracle, round - 1)| && oracle.provider(round).Replied?
    ensures Said(config, oracle, n)[p] == oracle.provider(round).response.message
  {
    hide SaidIn;
    var before, added := Said(config, oracle, n - 1), SaidIn(config, oracle, n);
    assert Said(config, oracle, n) == before + added;
    if p < |before| {
      round := SaidPlace(config, oracle, n - 1, p);
    } else {
      round := n;
      SaidInShape(config, oracle, n);
      assert added[p - |before|].role.AssistantRole?;
    }
  }

  /** The history a run leaves, as what its rounds said, and so each of its requests. */
  lemma {:induction false} RunSpoken(config: Config, oracle: Oracle, history: seq<Message>, input: Message)
    requires ConfigOk(config) && Faithful(config, oracle)
    ensures var (outcome, last) := Generate(config, oracle, history, input);
            && 0 <= Carried(outcome, last) <= |last.requests|
            && Spoken(config, oracle, history + [input], Carried(outcome, last), last.history, last.requests)
  {
    EveryRun(config, oracle, history, input);
    hide Generate, Faithful, ConfigOk, Spoken, WentOn, ResponseOk, HistoryOk;
  }

  /** In that history a message of the model is the answer of some round, and stands where the
      request of that round ended. */
  lemma {:induction false} AnswerPlace(config: Config, oracle: Oracle, history: seq<Message>, input: Message, p: nat)
    returns (round: nat)
    requires ConfigOk(config) && Faithful(config, oracle)
    requires var left := Generate(config, oracle, history, input).1.history;
             |history| < p < |left| && left[p].role.AssistantRole?
    ensures var last := Generate(config, oracle, history, input).1;
            && 1 <= round <= |last.requests| && p == |last.requests[round - 1]|
            && oracle.provider(round).Replied? && last.history[p] == oracle.provider(round).response.message
  {
    RunSpoken(config, oracle, history, input);
    hide Generate, Faithful, ConfigOk, Spoken;
    var (outcome, last) := Generate(config, oracle, history, input);
    round := SpokenPlace(config, oracle, history + [input], Carried(outcome, last), last.history, last.requests, p);
  }

  lemma {:induction false} SpokenPlace(config: Config, oracle: Oracle, base: seq<Message>, n: nat,
                                       history: seq<Message>, requests: seq<seq<Message>>, p: nat)
    returns (round: nat)
    requires Spoken(config, oracle, base, n, history, requests) && n <= |requests|
    requires |base| <= p < |history| && history[p].role.AssistantRole?
    ensures 1 <= round <= n && p == |requests[round - 1]|
    ensures oracle.provider(round).Replied? && history[p] == oracle.provider(round).response.message
  {
    hide Said;
    assert history[p] == Said(config, oracle, n)[p - |base|];
    round := SaidPlace(config, oracle, n, p - |base|);
    assert requests[round - 1] == base + Said(config, oracle, round - 1);
  }

  /** A session whose history is complete stays complete under every run. */
  lemma {:induction false} HistoryStaysComplete(config: Config, oracle: Oracle, history: seq<Message>, input: Message)
    requires ConfigOk(config) && Faithful(config, oracle) && Complete(history) && input.role.UserRole?
    ensures Complete(Generate(config, oracle, history, input).1.history)
    ensures forall i | 0 <= i < |Generate(config, oracle, history, input).1.requests| ::
              Complete(Generate(config, oracle, history, input).1.requests[i])
  {
    EveryRun(config, oracle, history, input);
    hide Generate, ConfigOk, Faithful, WellBracketed, UsageOk, Complete;
    var last := Generate(config, oracle, history, input).1;
    var base := history + [input];
    assert Complete([input]) by { OneUserMessage(input); }
    CompleteAppend(history, [input]);
    forall grown | HistoryOk(base, grown) ensures Complete(grown) {
      assert grown == base + grown[|base|..];
      CompleteAppend(base, grown[|base|..]);
    }
  }

  lemma {:induction false} OneUserMessage(input: Message)
    requires input.role.UserRole?
    ensures Complete([input])
  {
    assert [input][1..] == [];
  }

  /** A returned response reports a counter exactly when every round reported it, and then
      as the true sum over the rounds. */
  lemma {:induction false} ReturnedUsageExact(config: Config, oracle: Oracle, history: seq<Message>, input: Message,
                                              c: Counter)
    requires ConfigOk(config) && Faithful(config, oracle)
    requires Generate(config, oracle, history, input).0.Returned?
    ensures var response := Generate(config, oracle, history, input).0.response;
            && (forall k | 1 <= k <= response.modelRounds :: oracle.provider(k).Replied?)
            && var usages := UsagesOf(oracle, response.modelRounds);
               && (Get(response.usage, c).Some? <==> AllReported(usages, c))
               && (AllReported(usages, c) ==> Get(response.usage, c).value == Sum(usages, c))
  {
    EveryRun(config, oracle, history, input);
    hide Generate, ConfigOk, Faithful, WellBracketed, Get, HistoryOk;
    var response := Generate(config, oracle, history, input).0.response;
    AccumulationExact(UsagesOf(oracle, response.modelRounds));
  }

  /** A batch is refused for its size exactly when the calls made so far and the requested
      ones exceed the limit together; refused or not, the last round runs no tool. */
  lemma {:induction false} CallLimitExact(config: Config, oracle: Oracle, base: seq<Message>, st: State)
    requires ConfigOk(config) && StateOk(config, oracle, base, st)
    ensures var progress := OneRound(config, oracle, st);
            && (progress.Over? && progress.outcome == Failed(ToolCallLimit) <==>
                  && oracle.provider(st.round).Replied?
                  && oracle.provider(st.round).response.message.role.AssistantRole?
                  && st.toolCalls + |oracle.provider(st.round).response.message.calls| > config.maxToolCalls)
            && (st.round == config.maxRounds ==>
                  && progress.Over? && progress.state.toolCalls == st.toolCalls
                  && forall i | |st.events| <= i < |progress.state.events| ::
                       !progress.state.events[i].ToolStart? && !progress.state.events[i].ToolEnd?)
  {
    hide HistoryOk, UsageOk, TraceOk, RequestsOk, WorksOf, BatchEvents, SawError, ConfigOk;
    if oracle.provider(st.round).Replied? {
      var calls := oracle.provider(st.round).response.message.calls;
      CallFaultIsNoLimit(calls, {});
      AddedFailsByOverflow(st.usage, oracle.provider(st.round).response.usage, st.round == 1);
    }
    hide AddedUsage, CallFault;
  }

  lemma {:induction false} CallFaultIsNoLimit(calls: seq<ToolCall>, seen: set<string>)
    ensures CallFault(calls, seen) != Some(ToolCallLimit)
  {
    if calls != [] { CallFaultIsNoLimit(calls[1..], seen + {calls[0].id}); }
  }

  lemma {:induction false} AddedFailsByOverflow(total: TokenUsage, value: TokenUsage, first: bool)
    ensures AddedUsage(total, value, first).Err? ==> AddedUsage(total, value, first).error == UsageOverflow
  {
  }

  /** After rounds whose usage adds up, as in every state of the loop, the next one overflows
      exactly when some counter, reported in every round up to one of them, outgrows a word. */
  lemma {:induction false} OverflowIsReal(oracle: Oracle, round: nat, usage: TokenUsage)
    requires round >= 1 && UsageOk(oracle, round - 1, usage) && oracle.provider(round).Replied?
    ensures AddedUsage(usage, oracle.provider(round).response.usage, round == 1).Err?
            <==> exists c, k: nat :: OverflowsBy(UsagesOf(oracle, round), c, k)
  {
    hide AddedUsage;
    var usages := UsagesOf(oracle, round);
    assert usages[..round - 1] == UsagesOf(oracle, round - 1);
    assert usages[round - 1] == oracle.provider(round).response.usage;
    AccumulationExact(usages);
  }
}
