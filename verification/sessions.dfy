/** Runs one after the other on one session, and what their histories are made of. */
module Sessions {
  import opened Types
  import opened Transcript
  import Generation
  import Tools

  datatype SessionRun = SessionRun(config: Generation.Config, oracle: Generation.Oracle, input: Message)

  ghost predicate AllGood(history: seq<Message>, good: Message -> bool)
  {
    forall i | 0 <= i < |history| :: good(history[i])
  }

  /** A provider whose assistant messages are all good. */
  ghost predicate AnswersWell(oracle: Generation.Oracle, good: Message -> bool)
  {
    forall round: nat |
      oracle.provider(round).Replied? && oracle.provider(round).response.message.role.AssistantRole? ::
      good(oracle.provider(round).response.message)
  }

  ghost predicate RunOk(run: SessionRun, good: Message -> bool)
  {
    && Generation.ConfigOk(run.config) && Generation.Faithful(run.config, run.oracle)
    && AnswersWell(run.oracle, good)
    && run.input.role.UserRole? && good(run.input)
  }

  /** Nothing is asked of tool results: they come from the client. */
  ghost predicate ToolsPass(good: Message -> bool)
  {
    forall message: Message | message.role.ToolRole? :: good(message)
  }

  /** The history of a session after some runs on it, successful or not. */
  function HistoryAfter(runs: seq<SessionRun>): (history: seq<Message>)
    requires forall i | 0 <= i < |runs| :: runs[i].config.maxRounds >= 1
  {
    if runs == [] then [] else EndOfRun(HistoryAfter(runs[..|runs| - 1]), runs[|runs| - 1]).history
  }

  function EndOfRun(history: seq<Message>, run: SessionRun): (last: Generation.State)
    requires run.config.maxRounds >= 1
  {
    Generation.Generate(run.config, run.oracle, history, run.input).1
  }

  lemma {:induction false} AllGoodAppend(front: seq<Message>, back: seq<Message>, good: Message -> bool)
    requires AllGood(front, good) && AllGood(back, good)
    ensures AllGood(front + back, good)
  {
  }

  ghost predicate RequestsGood(requests: seq<seq<Message>>, good: Message -> bool)
  {
    forall i | 0 <= i < |requests| :: AllGood(requests[i], good)
  }

  lemma {:induction false} RoundKeepsGood(config: Generation.Config, oracle: Generation.Oracle, st: Generation.State,
                                          good: Message -> bool)
    requires st.round >= 1 && AnswersWell(oracle, good) && ToolsPass(good)
    requires AllGood(st.history, good) && RequestsGood(st.requests, good)
    ensures var after := Generation.OneRound(config, oracle, st).state;
            AllGood(after.history, good) && RequestsGood(after.requests, good)
  {
    Generation.RoundAccepted(config, oracle, st);
    Generation.RoundAsksOnce(config, oracle, st);
    if Generation.Accepted(config, oracle, st) {
      var message := oracle.provider(st.round).response.message;
      var works := Generation.WorksOf(config, oracle, st.round, message.calls);
      hide Generation.WorksOf, Generation.OneRound, Generation.Accepted, Generation.BatchEvents;
      assert AllGood([message], good);
      assert AllGood(Generation.ResultMessages(works), good);
      AllGoodAppend(st.history, [message], good);
      AllGoodAppend(st.history + [message], Generation.ResultMessages(works), good);
    } else {
      Generation.FailureKeepsHistory(config, oracle, st);
    }
  }

  lemma {:induction false} RoundsKeepGood(config: Generation.Config, oracle: Generation.Oracle, st: Generation.State,
                                          good: Message -> bool)
    requires 1 <= st.round <= config.maxRounds + 1 && AnswersWell(oracle, good) && ToolsPass(good)
    requires AllGood(st.history, good) && RequestsGood(st.requests, good)
    ensures var last := Generation.Rounds(config, oracle, st).1;
            AllGood(last.history, good) && RequestsGood(last.requests, good)
    decreases config.maxRounds + 1 - st.round
  {
    hide AllGood, RequestsGood, AnswersWell, ToolsPass;
    if st.round <= config.maxRounds {
      RoundKeepsGood(config, oracle, st, good);
      Generation.RoundAccepted(config, oracle, st);
      hide Generation.OneRound;
      var progress := Generation.OneRound(config, oracle, st);
      if progress.More? { RoundsKeepGood(config, oracle, progress.state, good); }
    }
  }

  /** One run on a complete and good history: what it leaves behind, and everything it
      asked the provider with, is complete and good. */
  lemma {:induction false} RunKeepsGood(history: seq<Message>, run: SessionRun, good: Message -> bool)
    requires RunOk(run, good) && ToolsPass(good) && Complete(history) && AllGood(history, good)
    ensures var last := EndOfRun(history, run);
            && Complete(last.history) && AllGood(last.history, good) && RequestsGood(last.requests, good)
            && forall i | 0 <= i < |last.requests| :: Complete(last.requests[i])
  {
    Generation.HistoryStaysComplete(run.config, run.oracle, history, run.input);
    hide Generation.Faithful, Complete, AnswersWell, ToolsPass;
    assert AllGood([run.input], good);
    AllGoodAppend(history, [run.input], good);
    RoundsKeepGood(run.config, run.oracle, Generation.Start(history, run.input), good);
    hide Generation.Rounds;
  }

  lemma {:induction false} SessionKeepsGood(runs: seq<SessionRun>, good: Message -> bool)
    requires ToolsPass(good) && forall i | 0 <= i < |runs| :: RunOk(runs[i], good)
    ensures forall i | 0 <= i < |runs| :: runs[i].config.maxRounds >= 1
    ensures Complete(HistoryAfter(runs)) && AllGood(HistoryAfter(runs), good)
  {
    hide Generation.Faithful, AnswersWell, ToolsPass, EndOfRun;
    forall i | 0 <= i < |runs| ensures runs[i].config.maxRounds >= 1 { assert RunOk(runs[i], good); }
    if runs != [] {
      var n := |runs| - 1;
      assert forall i | 0 <= i < n :: runs[..n][i] == runs[i];
      SessionKeepsGood(runs[..n], good);
      assert RunOk(runs[n], good);
      RunKeepsGood(HistoryAfter(runs[..n]), runs[n], good);
    }
  }

  /** What round `r` of the last of some runs on a session asks the provider with. */
  ghost predicate AskedWith(runs: seq<SessionRun>, r: nat, request: seq<Message>)
  {
    && runs != [] && (forall i | 0 <= i < |runs| :: runs[i].config.maxRounds >= 1)
    && var last := EndOfRun(HistoryAfter(runs[..|runs| - 1]), runs[|runs| - 1]);
       r < |last.requests| && request == last.requests[r]
  }

  /** Every request of every run on a session is complete and good. */
  lemma {:induction false} RequestIsGood(runs: seq<SessionRun>, r: nat, request: seq<Message>, good: Message -> bool)
    requires ToolsPass(good) && forall i | 0 <= i < |runs| :: RunOk(runs[i], good)
    requires AskedWith(runs, r, request)
    ensures Complete(request) && AllGood(request, good)
  {
    hide Generation.Faithful, AnswersWell, ToolsPass, EndOfRun, HistoryAfter, Complete, AllGood;
    var n := |runs| - 1;
    assert forall i | 0 <= i < n :: runs[..n][i] == runs[i];
    SessionKeepsGood(runs[..n], good);
    assert RunOk(runs[n], good);
    RunKeepsGood(HistoryAfter(runs[..n]), runs[n], good);
  }

  /** Whatever is asked of messages, a user message that has it is sent by some run, so the
      results about requests are about something. */
  lemma {:induction false} SomeRequest(input: Message, good: Message -> bool)
    returns (runs: seq<SessionRun>, request: seq<Message>)
    requires input.role.UserRole? && good(input)
    ensures runs != [] && forall i | 0 <= i < |runs| :: RunOk(runs[i], good)
    ensures AskedWith(runs, 0, request) && input in request
  {
    var config := Generation.Config(map[], 1, 1, false, 1, false);
    var oracle := Generation.Oracle(
      _ => Generation.Threw("unavailable"),
      (_, _) => Tools.Raised,
      _ => Generation.Batch([], []));
    var run := SessionRun(config, oracle, input);
    runs := [run];
    assert RunOk(run, good);
    assert HistoryAfter(runs[..0]) == [];
    var last := EndOfRun([], run);
    request := [input];
    var st := Generation.Start([], input);
    assert st.history == request && st.requests == [];
    Generation.RoundAsksOnce(config, oracle, st);
    assert Generation.OneRound(config, oracle, st).Over?;
    assert Generation.Rounds(config, oracle, st).1 == Generation.OneRound(config, oracle, st).state;
    assert last.requests == [request];
  }
}
