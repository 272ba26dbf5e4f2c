/** The events a generation reports, and a monitor that accepts well-bracketed traces. */
module Trace {
  import opened Json

  /** `operation` of a tool event is the id of its call. */
  datatype TraceEvent =
    | GenerationStart
    | ProviderStart(round: nat, messageCount: nat)
    | ProviderEnd(round: nat, callCount: nat)
    | ToolStart(operation: string)
    | ToolEnd(operation: string, isError: bool)
    | GenerationEnd
    | ErrorEvent

  /** Calls of the current round that are under way, and those that are over. */
  datatype Calls = Calls(running: set<string>, finished: set<string>)

  const NO_CALLS := Calls({}, {})

  /** One tool event: a call starts at most once, and ends once, after it started. */
  function AfterToolEvent(calls: Calls, event: TraceEvent): (next: Option<Calls>)
  {
    match event
    case ToolStart(id) =>
      if id in calls.running + calls.finished then None
      else Some(Calls(calls.running + {id}, calls.finished))
    case ToolEnd(id, _) =>
      if id !in calls.running then None
      else Some(Calls(calls.running - {id}, calls.finished + {id}))
    case _ => None
  }

  function AfterToolEvents(calls: Calls, events: seq<TraceEvent>): (next: Option<Calls>)
  {
    if events == [] then Some(calls)
    else
      match AfterToolEvents(calls, events[..|events| - 1])
      case None => None
      case Some(before) => AfterToolEvent(before, events[|events| - 1])
  }

  /** Where in a run the trace stands. */
  datatype Monitor =
    | Fresh
    | Opened
    | Calling(round: nat)
    | Answered(round: nat, expected: nat, calls: Calls)
    | Closed
    | Violated

  /** Each provider call and each tool call is closed before the next thing begins, the
      rounds count from one, and a round is left only with none or all of its calls over:
      none when the run ends in an error. */
  function Observe(monitor: Monitor, event: TraceEvent): (next: Monitor)
  {
    match monitor
    case Fresh => if event.GenerationStart? then Opened else Violated
    case Opened =>
      if event.ProviderStart? && event.round == 1 then Calling(1) else Violated
    case Calling(round) =>
      if event.ProviderEnd? && event.round == round then Answered(round, event.callCount, NO_CALLS)
      else if event.ErrorEvent? then Closed
      else Violated
    case Answered(round, expected, calls) =>
      if event.ToolStart? || event.ToolEnd? then
        match AfterToolEvent(calls, event)
        case None => Violated
        case Some(next) => Answered(round, expected, next)
      else if calls.running != {} then Violated
      else if event.ErrorEvent? && calls.finished == {} then Closed
      else if |calls.finished| != expected then Violated
      else if event.GenerationEnd? then Closed
      else if event.ProviderStart? && event.round == round + 1 then Calling(round + 1)
      else Violated
    case Closed => Violated
    case Violated => Violated
  }

  function ObserveAll(monitor: Monitor, events: seq<TraceEvent>): (next: Monitor)
  {
    if events == [] then monitor
    else Observe(ObserveAll(monitor, events[..|events| - 1]), events[|events| - 1])
  }

  /** A complete, well-bracketed trace of one run. */
  predicate WellBracketed(events: seq<TraceEvent>)
  {
    ObserveAll(Fresh, events) == Closed
  }

  lemma {:induction false} ObserveAppend(monitor: Monitor, front: seq<TraceEvent>, back: seq<TraceEvent>)
    ensures ObserveAll(monitor, front + back) == ObserveAll(ObserveAll(monitor, front), back)
  {
    if back == [] {
      assert front + back == front;
    } else {
      var n := |back| - 1;
      assert (front + back)[..|front + back| - 1] == front + back[..n];
      ObserveAppend(monitor, front, back[..n]);
    }
  }

  lemma {:induction false} ObserveOne(monitor: Monitor, events: seq<TraceEvent>, event: TraceEvent)
    ensures ObserveAll(monitor, events + [event]) == Observe(ObserveAll(monitor, events), event)
  {
    assert (events + [event])[..|events|] == events;
  }

  /** The tool events of a round, if they are in order, keep the round open. */
  lemma {:induction false} ObserveToolEvents(round: nat, expected: nat, calls: Calls, events: seq<TraceEvent>)
    requires AfterToolEvents(calls, events).Some?
    ensures ObserveAll(Answered(round, expected, calls), events)
            == Answered(round, expected, AfterToolEvents(calls, events).value)
  {
    if events != [] {
      ObserveToolEvents(round, expected, calls, events[..|events| - 1]);
    }
  }

  // ---- what acceptance by the monitor says about positions in the trace ----

  lemma {:induction false} ViolationStays(events: seq<TraceEvent>, i: nat)
    requires i <= |events| && ObserveAll(Fresh, events[..i]).Violated?
    ensures ObserveAll(Fresh, events).Violated?
    decreases |events| - i
  {
    if i < |events| {
      ObserveOne(Fresh, events[..i], events[i]);
      assert events[..i] + [events[i]] == events[..i + 1];
      ViolationStays(events, i + 1);
    } else {
      assert events[..i] == events;
    }
  }

  lemma {:induction false} ClosedIsLast(events: seq<TraceEvent>, i: nat)
    requires i < |events| && ObserveAll(Fresh, events[..i]).Closed?
    ensures ObserveAll(Fresh, events).Violated?
  {
    ObserveOne(Fresh, events[..i], events[i]);
    assert events[..i] + [events[i]] == events[..i + 1];
    ViolationStays(events, i + 1);
  }

  predicate Closing(event: TraceEvent)
  {
    event.GenerationEnd? || event.ErrorEvent?
  }

  /** In an accepted trace the start comes first and only first, and exactly one closing
      event ends it. */
  lemma {:induction false} BracketedEnds(events: seq<TraceEvent>)
    requires WellBracketed(events)
    ensures |events| >= 2
    ensures forall i | 0 <= i < |events| :: events[i].GenerationStart? <==> i == 0
    ensures forall i | 0 <= i < |events| :: Closing(events[i]) <==> i == |events| - 1
  {
    forall i: nat | i < |events|
      ensures events[i].GenerationStart? <==> i == 0
      ensures Closing(events[i]) <==> i == |events| - 1
    {
      Here(events, i);
    }
  }

  lemma {:induction false} Here(events: seq<TraceEvent>, i: nat)
    requires WellBracketed(events) && i < |events|
    ensures events[i].GenerationStart? <==> i == 0
    ensures Closing(events[i]) <==> i == |events| - 1
    ensures |events| >= 2
  {
    ObserveOne(Fresh, events[..i], events[i]);
    assert events[..i] + [events[i]] == events[..i + 1];
    if ObserveAll(Fresh, events[..i]).Closed? { ClosedIsLast(events, i); }
    if ObserveAll(Fresh, events[..i + 1]).Violated? { ViolationStays(events, i + 1); }
    if i + 1 < |events| && ObserveAll(Fresh, events[..i + 1]).Closed? { ClosedIsLast(events, i + 1); }
    if i + 1 == |events| { assert events[..i + 1] == events; }
    if i > 0 { Opening(events, i); }
  }

  /** After the first event the monitor never returns to its initial state. */
  lemma {:induction false} Opening(events: seq<TraceEvent>, i: nat)
    requires 0 < i <= |events|
    ensures !ObserveAll(Fresh, events[..i]).Fresh?
  {
    assert events[..i][..i - 1] == events[..i - 1];
  }

  predicate Open(monitor: Monitor, id: string)
  {
    monitor.Answered? && id in monitor.calls.running
  }

  /** An open call is ended before anything but tool events of other calls happens. */
  lemma {:induction false} OpenCallEnds(events: seq<TraceEvent>, p: nat, id: string) returns (j: nat)
    requires WellBracketed(events) && p <= |events|
    requires Open(ObserveAll(Fresh, events[..p]), id)
    ensures p <= j < |events| && events[j].ToolEnd? && events[j].operation == id
    ensures forall k | p <= k < j :: (events[k].ToolStart? || events[k].ToolEnd?) && events[k].operation != id
    decreases |events| - p
  {
    hide ObserveAll;
    assert events[..|events|] == events;
    ObserveOne(Fresh, events[..p], events[p]);
    assert events[..p] + [events[p]] == events[..p + 1];
    if ObserveAll(Fresh, events[..p + 1]).Violated? { ViolationStays(events, p + 1); }
    if events[p].ToolEnd? && events[p].operation == id {
      j := p;
    } else {
      j := OpenCallEnds(events, p + 1, id);
    }
  }

  /** Every tool start of an accepted trace has exactly one end, and only tool events of
      other calls lie between: no provider call, no end of the run. */
  lemma {:induction false} ToolStartIsEnded(events: seq<TraceEvent>, i: nat) returns (j: nat)
    requires WellBracketed(events) && i < |events| && events[i].ToolStart?
    ensures i < j < |events| && events[j].ToolEnd? && events[j].operation == events[i].operation
    ensures forall k | i < k < j ::
              (events[k].ToolStart? || events[k].ToolEnd?) && events[k].operation != events[i].operation
  {
    ObserveOne(Fresh, events[..i], events[i]);
    assert events[..i] + [events[i]] == events[..i + 1];
    if ObserveAll(Fresh, events[..i + 1]).Violated? { ViolationStays(events, i + 1); }
    j := OpenCallEnds(events, i + 1, events[i].operation);
  }

  /** The monitor before and after event `i` of an accepted trace: nothing is violated. */
  lemma {:induction false} Between(events: seq<TraceEvent>, i: nat)
    requires WellBracketed(events) && i < |events|
    ensures ObserveAll(Fresh, events[..i + 1]) == Observe(ObserveAll(Fresh, events[..i]), events[i])
    ensures !ObserveAll(Fresh, events[..i + 1]).Violated?
    ensures i == 0 ==> ObserveAll(Fresh, events[..i]) == Fresh
  {
    ObserveOne(Fresh, events[..i], events[i]);
    assert events[..i] + [events[i]] == events[..i + 1];
    assert i == 0 ==> events[..i] == [];
    if ObserveAll(Fresh, events[..i + 1]).Violated? { ViolationStays(events, i + 1); }
  }

  /** Every provider end closes the provider start directly before it, of the same round. */
  lemma {:induction false} ProviderEndClosesStart(events: seq<TraceEvent>, i: nat)
    requires WellBracketed(events) && i < |events| && events[i].ProviderEnd?
    ensures i > 0 && events[i - 1].ProviderStart? && events[i - 1].round == events[i].round
  {
    hide ObserveAll, WellBracketed;
    Between(events, i);
    assert i > 0;
    Between(events, i - 1);
  }

  /** Before a tool event, with only tool events between, lies a provider end: the one of its
      round, with no later provider start. */
  lemma {:induction false} ToolEventInRound(events: seq<TraceEvent>, i: nat) returns (p: nat)
    requires WellBracketed(events) && i < |events| && (events[i].ToolStart? || events[i].ToolEnd?)
    ensures p < i && events[p].ProviderEnd?
    ensures forall k | p < k < i :: events[k].ToolStart? || events[k].ToolEnd?
  {
    hide ObserveAll, WellBracketed;
    Between(events, i);
    assert i > 0;
    Between(events, i - 1);
    if events[i - 1].ProviderEnd? {
      p := i - 1;
    } else {
      p := ToolEventInRound(events, i - 1);
    }
  }
}
