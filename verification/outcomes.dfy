/** How runs end and what they report, said of the answers of the provider alone. */
module Outcomes {
  import opened Json
  import opened Types
  import opened Usage
  import opened Trace
  import opened Tools
  import opened Executor
  import opened Generation

  // ---- what is wrong with an answer ----

  predicate Nameless(call: ToolCall)
  {
    call.id == [] || call.name == []
  }

  /** The call has no id or no name, or the id of an earlier one. */
  predicate Faulty(calls: seq<ToolCall>, i: nat)
    requires i < |calls|
  {
    Nameless(calls[i]) || exists j | 0 <= j < i :: calls[j].id == calls[i].id
  }

  ghost predicate FirstFaulty(calls: seq<ToolCall>, i: nat)
  {
    i < |calls| && Faulty(calls, i) && forall j | 0 <= j < i :: !Faulty(calls, j)
  }

  /** The calls asked for in the first `n` rounds. */
  function CallsAsked(oracle: Oracle, n: nat): (count: nat)
  {
    if n == 0 then 0
    else
      CallsAsked(oracle, n - 1)
      + match oracle.provider(n) case Threw(_) => 0 case Replied(response) => |response.message.calls|
  }

  /** Some counter, reported in every round up to one of the first `n`, outgrows a word. */
  ghost predicate Overflows(oracle: Oracle, n: nat)
  {
    && (forall k | 1 <= k <= n :: oracle.provider(k).Replied?)
    && exists c, k: nat :: OverflowsBy(UsagesOf(oracle, n), c, k)
  }

  predicate Speaks(oracle: Oracle, n: nat)
  {
    oracle.provider(n).Replied? && oracle.provider(n).response.message.role.AssistantRole?
  }

  /** It also asks for no more calls than are left. */
  predicate Fits(config: Config, oracle: Oracle, n: nat)
  {
    Speaks(oracle, n) && CallsAsked(oracle, n) <= config.maxToolCalls
  }

  /** Nothing is wrong with the answer. */
  ghost predicate InOrder(config: Config, oracle: Oracle, n: nat)
  {
    && Fits(config, oracle, n) && !Overflows(oracle, n)
    && forall i | 0 <= i < |oracle.provider(n).response.message.calls| ::
         !Faulty(oracle.provider(n).response.message.calls, i)
  }

  /** The answer needs another round. */
  predicate AsksOn(oracle: Oracle, n: nat)
    requires oracle.provider(n).Replied?
  {
    oracle.provider(n).response.message.calls != [] || oracle.provider(n).response.requiresContinuation
  }

  /** When a run whose last request is that of round `n` fails, and how. */
  ghost predicate FailsWith(config: Config, oracle: Oracle, n: nat, failure: Failure)
  {
    match failure
    case Thrown(what) => oracle.provider(n) == Threw(what)
    case WrongRole => oracle.provider(n).Replied? && !Speaks(oracle, n)
    case ToolCallLimit => Speaks(oracle, n) && !Fits(config, oracle, n)
    case MissingIdOrName =>
      && Fits(config, oracle, n)
      && var calls := oracle.provider(n).response.message.calls;
         exists i: nat :: FirstFaulty(calls, i) && Nameless(calls[i])
    case DuplicateCallId(id) =>
      && Fits(config, oracle, n)
      && var calls := oracle.provider(n).response.message.calls;
         exists i: nat :: FirstFaulty(calls, i) && !Nameless(calls[i]) && calls[i].id == id
    case UsageOverflow =>
      && Fits(config, oracle, n) && Overflows(oracle, n)
      && forall i | 0 <= i < |oracle.provider(n).response.message.calls| ::
           !Faulty(oracle.provider(n).response.message.calls, i)
    case MaxRounds => InOrder(config, oracle, n) && AsksOn(oracle, n) && n == config.maxRounds
    case _ => false
  }

  /** The loop over the calls finds the first faulty one. */
  lemma {:induction false} FaultFound(calls: seq<ToolCall>, i: nat, seen: set<string>)
    requires i <= |calls| && forall j | 0 <= j < i :: !Faulty(calls, j)
    requires forall id :: id in seen <==> exists j | 0 <= j < i :: calls[j].id == id
    ensures match CallFault(calls[i..], seen)
            case None => forall j | 0 <= j < |calls| :: !Faulty(calls, j)
            case Some(fault) =>
              exists j: nat :: FirstFaulty(calls, j)
                && fault == if Nameless(calls[j]) then MissingIdOrName else DuplicateCallId(calls[j].id)
    decreases |calls| - i
  {
    if i < |calls| {
      assert calls[i..][0] == calls[i] && calls[i..][1..] == calls[i + 1..];
      assert Faulty(calls, i) <==> Nameless(calls[i]) || calls[i].id in seen;
      if Faulty(calls, i) {
        assert FirstFaulty(calls, i);
      } else {
        FaultFound(calls, i + 1, seen + {calls[i].id});
      }
    }
  }

  lemma {:induction false} FaultExactly(calls: seq<ToolCall>)
    ensures CallFault(calls, {}).None? <==> forall i | 0 <= i < |calls| :: !Faulty(calls, i)
    ensures CallFault(calls, {}) == Some(MissingIdOrName) <==>
              exists i: nat :: FirstFaulty(calls, i) && Nameless(calls[i])
    ensures forall id :: CallFault(calls, {}) == Some(DuplicateCallId(id)) <==>
              exists i: nat :: FirstFaulty(calls, i) && !Nameless(calls[i]) && calls[i].id == id
    ensures CallFault(calls, {}).Some? ==>
              CallFault(calls, {}).value.MissingIdOrName? || CallFault(calls, {}).value.DuplicateCallId?
  {
    assert calls[0..] == calls;
    FaultFound(calls, 0, {});
    hide CallFault, Faulty, Nameless;
    forall i: nat, j: nat | FirstFaulty(calls, i) && FirstFaulty(calls, j) ensures i == j {
    }
    forall i: nat | FirstFaulty(calls, i) ensures 0 <= i < |calls| && Faulty(calls, i) {
    }
  }

  // ---- every run ends as its answers say ----

  /** Where the loop stands before a round, in terms of the answers so far. */
  ghost predicate Standing(config: Config, oracle: Oracle, st: State)
  {
    && st.round >= 1 && |st.requests| == st.round - 1
    && st.toolCalls == CallsAsked(oracle, st.round - 1) && st.toolCalls <= config.maxToolCalls
    && UsageOk(oracle, st.round - 1, st.usage)
    && PassedOn(config, oracle, st.round - 1)
  }

  ghost predicate PassedOn(config: Config, oracle: Oracle, n: nat)
  {
    forall k | 1 <= k <= n :: InOrder(config, oracle, k) && AsksOn(oracle, k)
  }

  lemma {:induction false} OverflowFound(oracle: Oracle, round: nat, usage: TokenUsage)
    requires round >= 1 && UsageOk(oracle, round - 1, usage) && oracle.provider(round).Replied?
    ensures var added := AddedUsage(usage, oracle.provider(round).response.usage, round == 1);
            && (added.Err? <==> Overflows(oracle, round)) && (added.Err? ==> added.error == UsageOverflow)
  {
    OverflowIsReal(oracle, round, usage);
    AddedFailsByOverflow(usage, oracle.provider(round).response.usage, round == 1);
    hide AddedUsage, OverflowsBy;
  }

  /** The first thing wrong with the answer of a round, in the order of the checks. */
  function FoundWrong(config: Config, oracle: Oracle, st: State): (failure: Option<Failure>)
  {
    match oracle.provider(st.round)
    case Threw(what) => Some(Thrown(what))
    case Replied(response) =>
      var calls := response.message.calls;
      var usage := AddedUsage(st.usage, response.usage, st.round == 1);
      if !response.message.role.AssistantRole? then Some(WrongRole)
      else if st.toolCalls + |calls| > config.maxToolCalls then Some(ToolCallLimit)
      else if CallFault(calls, {}).Some? then CallFault(calls, {})
      else if usage.Err? then Some(usage.error)
      else if (calls != [] || response.requiresContinuation) && st.round == config.maxRounds then Some(MaxRounds)
      else None
  }

  lemma {:induction false} RoundFailsSo(config: Config, oracle: Oracle, st: State)
    requires st.round >= 1 && st.toolCalls <= config.maxToolCalls
    ensures var progress, wrong := OneRound(config, oracle, st), FoundWrong(config, oracle, st);
            && (wrong.Some? ==> progress.Over? && progress.outcome == Failed(wrong.value))
            && (wrong.None? ==> progress.More? || progress.outcome.Returned?)
            && (progress.More? ==> oracle.provider(st.round).Replied? && AsksOn(oracle, st.round))
  {
    hide CallFault, AddedUsage, WorksOf, BatchEvents, SawError, ResultMessages;
  }

  lemma {:induction false} WrongFails(config: Config, oracle: Oracle, st: State)
    requires Standing(config, oracle, st)
    ensures match FoundWrong(config, oracle, st)
            case Some(failure) => FailsWith(config, oracle, st.round, failure)
            case None =>
              InOrder(config, oracle, st.round) && (AsksOn(oracle, st.round) ==> st.round != config.maxRounds)
  {
    if oracle.provider(st.round).Replied? {
      FaultExactly(oracle.provider(st.round).response.message.calls);
      OverflowFound(oracle, st.round, st.usage);
      assert CallsAsked(oracle, st.round) == st.toolCalls + |oracle.provider(st.round).response.message.calls|;
    }
    hide CallFault, AddedUsage, Overflows, FirstFaulty, Faulty, Nameless, UsageOk, PassedOn, CallsAsked;
  }

  /** No answer calls for two failures, nor does one that is in order call for any but the limit
      of rounds. */
  lemma {:induction false} OneFailure(config: Config, oracle: Oracle, n: nat, one: Failure, other: Failure)
    requires FailsWith(config, oracle, n, one)
    ensures FailsWith(config, oracle, n, other) ==> one == other
    ensures InOrder(config, oracle, n) ==> AsksOn(oracle, n) && n == config.maxRounds
  {
    hide Overflows, Faulty, Nameless, CallsAsked;
    if oracle.provider(n).Replied? {
      var calls := oracle.provider(n).response.message.calls;
      forall i: nat, j: nat | FirstFaulty(calls, i) && FirstFaulty(calls, j) ensures i == j {
      }
      forall i: nat | FirstFaulty(calls, i) ensures 0 <= i < |calls| && Faulty(calls, i) {
      }
    }
    hide FirstFaulty;
  }

  lemma {:induction false} WrongExactly(config: Config, oracle: Oracle, st: State, failure: Failure)
    requires Standing(config, oracle, st)
    ensures FoundWrong(config, oracle, st) == Some(failure) <==> FailsWith(config, oracle, st.round, failure)
    ensures FoundWrong(config, oracle, st).None? <==>
              InOrder(config, oracle, st.round) && (AsksOn(oracle, st.round) ==> st.round != config.maxRounds)
  {
    WrongFails(config, oracle, st);
    hide FoundWrong, FailsWith, InOrder, Standing;
    var found := FoundWrong(config, oracle, st);
    if found.Some? { OneFailure(config, oracle, st.round, found.value, failure); }
    if FailsWith(config, oracle, st.round, failure) { OneFailure(config, oracle, st.round, failure, failure); }
  }

  /** One round fails exactly as the answer says, and is carried through otherwise. */
  lemma {:induction false} RoundOutcome(config: Config, oracle: Oracle, st: State)
    requires Standing(config, oracle, st) && st.round <= config.maxRounds
    ensures var progress := OneRound(config, oracle, st);
            && (forall failure :: progress.Over? && progress.outcome == Failed(failure)
                                  <==> FailsWith(config, oracle, st.round, failure))
            && (progress.More? || progress.outcome.Returned? <==>
                  InOrder(config, oracle, st.round) && (AsksOn(oracle, st.round) ==> st.round < config.maxRounds))
            && (progress.More? ==> AsksOn(oracle, st.round))
  {
    RoundFailsSo(config, oracle, st);
    WrongExactly(config, oracle, st, MaxRounds);
    hide OneRound, FailsWith, InOrder, FoundWrong, UsageOk, PassedOn;
    forall failure
      ensures OneRound(config, oracle, st).Over? && OneRound(config, oracle, st).outcome == Failed(failure)
              <==> FailsWith(config, oracle, st.round, failure)
    {
      WrongExactly(config, oracle, st, failure);
    }
  }

  lemma {:induction false} StandingKept(config: Config, oracle: Oracle, st: State)
    requires Standing(config, oracle, st) && st.round <= config.maxRounds
    requires OneRound(config, oracle, st).More?
    ensures Standing(config, oracle, OneRound(config, oracle, st).state)
    ensures OneRound(config, oracle, st).state.round == st.round + 1
  {
    RoundOutcome(config, oracle, st);
    RoundAccepted(config, oracle, st);
    UsageKept(config, oracle, st);
    InOrderFits(config, oracle, st.round);
    PassedFurther(config, oracle, st.round);
    hide OneRound, Accepted, AddedUsage, WorksOf, BatchEvents, InOrder, UsageOk, ResultMessages, PassedOn;
    assert CallsAsked(oracle, st.round)
        == CallsAsked(oracle, st.round - 1) + |oracle.provider(st.round).response.message.calls|;
    hide CallsAsked;
  }

  lemma {:induction false} PassedFurther(config: Config, oracle: Oracle, n: nat)
    requires n >= 1 && PassedOn(config, oracle, n - 1) && InOrder(config, oracle, n) && AsksOn(oracle, n)
    ensures PassedOn(config, oracle, n)
  {
    hide InOrder, AsksOn;
  }

  lemma {:induction false} UsageKept(config: Config, oracle: Oracle, st: State)
    requires st.round >= 1 && UsageOk(oracle, st.round - 1, st.usage) && Accepted(config, oracle, st)
    ensures UsageOk(oracle, st.round, AfterRound(config, oracle, st).usage)
  {
    hide CallFault, AddedUsage, WorksOf, BatchEvents, UsageOk;
    UsageGrows(oracle, st.round - 1, st.usage, AfterRound(config, oracle, st).usage);
  }

  lemma {:induction false} InOrderFits(config: Config, oracle: Oracle, n: nat)
    requires InOrder(config, oracle, n)
    ensures CallsAsked(oracle, n) <= config.maxToolCalls && oracle.provider(n).Replied?
  {
  }

  /** Of a run that has come to round `n`: the answers before were in order and asked on, and the
      run fails just as the last answer says, or else returns. */
  ghost predicate EndsAs(config: Config, oracle: Oracle, outcome: Outcome, n: nat)
  {
    && 1 <= n <= config.maxRounds && PassedOn(config, oracle, n - 1)
    && (forall failure :: outcome == Failed(failure) <==> FailsWith(config, oracle, n, failure))
    && (outcome.Returned? <==> InOrder(config, oracle, n) && (AsksOn(oracle, n) ==> n < config.maxRounds))
  }

  lemma {:induction false} RoundsOutcome(config: Config, oracle: Oracle, st: State)
    requires Standing(config, oracle, st) && st.round <= config.maxRounds
    ensures var (outcome, last) := Rounds(config, oracle, st);
            EndsAs(config, oracle, outcome, |last.requests|)
    decreases config.maxRounds - st.round
  {
    RoundOutcome(config, oracle, st);
    RoundAsksOnce(config, oracle, st);
    if OneRound(config, oracle, st).More? {
      StandingKept(config, oracle, st);
      RoundLeavesRoom(config, oracle, st);
      RoundsOutcome(config, oracle, OneRound(config, oracle, st).state);
    }
    hide OneRound, FailsWith, InOrder, UsageOk;
  }

  /** Every run, whatever the provider answers and the tools do: the answers before the last
      one were in order and asked for another round; the run fails with just the failure that
      the last answer calls for, and returns exactly if that is in order too and asks for no
      round beyond the limit. */
  lemma {:induction false} OutcomeExactly(config: Config, oracle: Oracle, history: seq<Message>, input: Message)
    requires ConfigOk(config)
    ensures var (outcome, last) := Generate(config, oracle, history, input);
            EndsAs(config, oracle, outcome, |last.requests|)
  {
    var st := Generation.Start(history, input);
    assert Standing(config, oracle, st);
    hide Rounds;
    RoundsOutcome(config, oracle, st);
  }

  // ---- what a run reports ----

  /** What one round carried through reports: that it asked, with how many messages, that it was
      answered, with how many calls, and its tool events. */
  function ReportOf(config: Config, oracle: Oracle, base: seq<Message>, n: nat): (events: seq<TraceEvent>)
    requires n >= 1
  {
    match oracle.provider(n)
    case Threw(_) => []
    case Replied(response) =>
      [ProviderStart(n, |base| + |Said(config, oracle, n - 1)|), ProviderEnd(n, |response.message.calls|)]
      + BatchEvents(config, oracle, n, response.message.calls)
  }

  function Report(config: Config, oracle: Oracle, base: seq<Message>, n: nat): (events: seq<TraceEvent>)
  {
    if n == 0 then [GenerationStart] else Report(config, oracle, base, n - 1) + ReportOf(config, oracle, base, n)
  }

  /** All that a run reports whose last request is that of round `n`. A failing round is
      reported as asked and, if only the limit of rounds stops it, as answered. */
  function WholeReport(config: Config, oracle: Oracle, base: seq<Message>, outcome: Outcome, n: nat)
    : (events: seq<TraceEvent>)
    requires n >= 1
  {
    match outcome
    case Returned(_) => Report(config, oracle, base, n) + [GenerationEnd]
    case Failed(failure) =>
      Report(config, oracle, base, n - 1)
      + [ProviderStart(n, |base| + |Said(config, oracle, n - 1)|)]
      + (if failure.MaxRounds? && oracle.provider(n).Replied?
         then [ProviderEnd(n, |oracle.provider(n).response.message.calls|)] else [])
      + [ErrorEvent]
  }

  ghost predicate Reporting(config: Config, oracle: Oracle, base: seq<Message>, st: State)
  {
    && st.round >= 1 && |st.requests| == st.round - 1
    && st.history == base + Said(config, oracle, st.round - 1)
    && st.events == Report(config, oracle, base, st.round - 1)
  }

  lemma {:induction false} RoundReported(config: Config, oracle: Oracle, base: seq<Message>, st: State)
    requires Reporting(config, oracle, base, st)
    ensures match OneRound(config, oracle, st)
            case More(next) => Reporting(config, oracle, base, next) && next.round == st.round + 1
            case Over(outcome, last) =>
              && last.events == WholeReport(config, oracle, base, outcome, st.round)
              && |last.requests| == st.round
  {
    RoundAccepted(config, oracle, st);
    RoundAsksOnce(config, oracle, st);
    if Accepted(config, oracle, st) {
      AcceptedReported(config, oracle, base, st);
      hide OneRound, Accepted, AfterRound;
    } else {
      FailureReported(config, oracle, st);
      hide OneRound, Accepted, AfterRound, Report, Said;
    }
  }

  lemma {:induction false} AcceptedReported(config: Config, oracle: Oracle, base: seq<Message>, st: State)
    requires Reporting(config, oracle, base, st) && Accepted(config, oracle, st)
    ensures var after := AfterRound(config, oracle, st);
            && after.history == base + Said(config, oracle, st.round)
            && after.events == Report(config, oracle, base, st.round)
  {
    hide WorksOf, BatchEvents, AddedUsage, CallFault, ResultMessages;
    var message := oracle.provider(st.round).response.message;
    var results := ResultMessages(WorksOf(config, oracle, st.round, message.calls));
    var tools := BatchEvents(config, oracle, st.round, message.calls);
    var start, end := ProviderStart(st.round, |st.history|), ProviderEnd(st.round, |message.calls|);
    var after := AfterRound(config, oracle, st);
    assert after.history == st.history + [message] + results;
    assert after.events == st.events + [start] + [end] + tools;
    assert SaidIn(config, oracle, st.round) == [message] + results;
    assert Report(config, oracle, base, st.round) == st.events + ([start, end] + tools);
    hide AfterRound, Report, SaidIn, Accepted;
    SaidNext(config, oracle, base, st.round, message, results);
    hide Said;
    Regroup(st.events, start, end, tools);
  }

  lemma {:induction false} Regroup(events: seq<TraceEvent>, start: TraceEvent, end: TraceEvent, tools: seq<TraceEvent>)
    ensures events + [start] + [end] + tools == events + ([start, end] + tools)
  {
  }

  lemma {:induction false} FailureReported(config: Config, oracle: Oracle, st: State)
    requires st.round >= 1 && !Accepted(config, oracle, st)
    ensures var over := OneRound(config, oracle, st);
            && over.Over? && over.outcome.Failed?
            && over.state.events == st.events + [ProviderStart(st.round, |st.history|)]
                 + (if over.outcome.failure.MaxRounds? && oracle.provider(st.round).Replied?
                    then [ProviderEnd(st.round, |oracle.provider(st.round).response.message.calls|)] else [])
                 + [ErrorEvent]
  {
    if oracle.provider(st.round).Replied? {
      FaultExactly(oracle.provider(st.round).response.message.calls);
      AddedFailsByOverflow(st.usage, oracle.provider(st.round).response.usage, st.round == 1);
    }
    hide AddedUsage, CallFault, SawError, WorksOf, BatchEvents;
  }

  lemma {:induction false} RoundsReported(config: Config, oracle: Oracle, base: seq<Message>, st: State)
    requires Reporting(config, oracle, base, st) && st.round <= config.maxRounds
    ensures var (outcome, last) := Rounds(config, oracle, st);
            |last.requests| >= 1 && last.events == WholeReport(config, oracle, base, outcome, |last.requests|)
    decreases config.maxRounds - st.round
  {
    RoundReported(config, oracle, base, st);
    hide WholeReport;
    if OneRound(config, oracle, st).More? {
      RoundLeavesRoom(config, oracle, st);
      hide OneRound, Reporting;
      RoundsReported(config, oracle, base, OneRound(config, oracle, st).state);
    }
  }

  /** Every run reports just this, event by event. */
  lemma {:induction false} ReportExactly(config: Config, oracle: Oracle, history: seq<Message>, input: Message)
    requires ConfigOk(config)
    ensures var (outcome, last) := Generate(config, oracle, history, input);
            |last.requests| >= 1
            && last.events == WholeReport(config, oracle, history + [input], outcome, |last.requests|)
  {
    var base, st := history + [input], Generation.Start(history, input);
    assert base + [] == base;
    assert Reporting(config, oracle, base, st);
    hide Rounds, WholeReport;
    RoundsReported(config, oracle, base, st);
  }

  // ---- what tools are asked and what they say ----

  /** One by one, each call is reported as started and then as ended, with the error mark of
      its output. */
  lemma {:induction false} SequentialReport(works: seq<Work>, i: nat)
    requires i < |works|
    ensures |SequentialEvents(works)| == 2 * |works|
    ensures SequentialEvents(works)[2 * i] == ToolStart(works[i].call.id)
    ensures SequentialEvents(works)[2 * i + 1] == ToolEnd(works[i].call.id, works[i].output.isError)
  {
    var n := |works| - 1;
    if i < n {
      SequentialReport(works[..n], i);
    } else if n > 0 {
      SequentialReport(works[..n], 0);
    }
  }

  /** On either path every tool end says of some call of the round whether it failed. */
  lemma {:induction false} ToolEndsTell(config: Config, oracle: Oracle, n: nat)
    requires ConfigOk(config) && Faithful(config, oracle) && oracle.provider(n).Replied?
    ensures var calls := oracle.provider(n).response.message.calls;
            EndsTell(WorksOf(config, oracle, n, calls), BatchEvents(config, oracle, n, calls))
  {
    var calls := oracle.provider(n).response.message.calls;
    var works := WorksOf(config, oracle, n, calls);
    hide WorksOf, ConfigOk;
    if RunsInParallel(config, calls) {
      var setups, s, j :| ReturnedBy(setups, s, j, works, config.maxParallel, oracle.batch(n));
      ReturnedJobComplete(setups, s, j);
    } else {
      SequentialEndsTell(works);
    }
  }

  lemma {:induction false} SequentialEndsTell(works: seq<Work>)
    ensures EndsTell(works, SequentialEvents(works))
  {
    if works != [] {
      var n := |works| - 1;
      SequentialEndsTell(works[..n]);
      var events := SequentialEvents(works[..n]);
      forall k | 0 <= k < |events| && events[k].ToolEnd? ensures EndTells(works, events[k]) {
        assert EndTells(works[..n], events[k]);
        var i :| 0 <= i < n && events[k] == ToolEnd(works[..n][i].call.id, works[..n][i].output.isError);
        assert works[..n][i] == works[i];
      }
      assert EndTells(works, ToolEnd(works[n].call.id, works[n].output.isError));
    }
  }

  /** Which path a round takes, and what it reports there: two calls or more go to the executor
      if the client has one, and what a run of it reports is reported; otherwise the start and
      the end of each call are, in order. */
  lemma {:induction false} PathExactly(config: Config, oracle: Oracle, n: nat)
    requires ConfigOk(config) && Faithful(config, oracle) && oracle.provider(n).Replied?
    ensures var calls, works, events := oracle.provider(n).response.message.calls,
                                        WorksOf(config, oracle, n, oracle.provider(n).response.message.calls),
                                        BatchEvents(config, oracle, n, oracle.provider(n).response.message.calls);
            if config.parallel && |calls| > 1 then
              && events == oracle.batch(n).events
              && ExecutedBySomeRun(works, config.maxParallel, oracle.batch(n))
            else
              && |events| == 2 * |calls|
              && forall i | 0 <= i < |calls| ::
                   && events[2 * i] == ToolStart(calls[i].id)
                   && events[2 * i + 1] == ToolEnd(calls[i].id, works[i].output.isError)
  {
    var calls := oracle.provider(n).response.message.calls;
    var works := WorksOf(config, oracle, n, calls);
    hide WorksOf, ConfigOk, ExecutedBySomeRun;
    if !(config.parallel && |calls| > 1) {
      forall i | 0 <= i < |works| { SequentialReport(works, i); }
    }
  }

  /** The result of a call in the history: a tool message of the call's id, name and native form
      that shows what the call came to. */
  ghost predicate ResultOf(config: Config, call: ToolCall, invocation: Invocation, result: Message)
  {
    && result.role.ToolRole? && result.calls == []
    && result.callId == call.id && result.toolName == call.name && result.metadata == call.metadata
    && ComesTo(config.registry, call, invocation, result.contents, result.isError)
  }

  /** What a round says, without a word on how: the provider's message, and behind it one such
      result for each of its calls, in order. */
  lemma {:induction false} SaidExactly(config: Config, oracle: Oracle, n: nat)
    requires ConfigOk(config) && oracle.provider(n).Replied?
    ensures var message, said := oracle.provider(n).response.message, SaidIn(config, oracle, n);
            && |said| == 1 + |message.calls| && said[0] == message
            && forall i | 0 <= i < |message.calls| ::
                 ResultOf(config, message.calls[i], oracle.invocation(n, i), said[1 + i])
  {
    var message, said := oracle.provider(n).response.message, SaidIn(config, oracle, n);
    forall i | 0 <= i < |message.calls|
      ensures ResultOf(config, message.calls[i], oracle.invocation(n, i), said[1 + i])
    {
      var call, invocation := message.calls[i], oracle.invocation(n, i);
      assert said[1 + i] == ResultMessage(WorkFor(config.registry, call, invocation));
      hide Admit, Conclude, ComesTo, RegistryOk;
      OutputExactly(config.registry, call, invocation);
    }
  }

  /** What the executor is given for a call: its tool exactly if the call conforms, and what it
      comes to. */
  lemma {:induction false} WorkExactly(registry: Registry, call: ToolCall, invocation: Invocation)
    requires RegistryOk(registry)
    ensures var work := WorkFor(registry, call, invocation);
            && work.call == call
            && (work.tool.Some? <==> Conforming(registry, call))
            && (work.tool.Some? ==> work.tool.value == registry[call.name].tool)
            && ComesTo(registry, call, invocation, work.output.contents, work.output.isError)
  {
    AdmittedExactly(registry, call);
    OutputExactly(registry, call, invocation);
    hide Admit, Conclude, ComesTo, RegistryOk, Conforming;
  }
}
