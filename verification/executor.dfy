/** The tool executor as a protocol of interleaved steps. A system holds any number of
    jobs, one for each running `execute_tools` call of any client, and the locks of the
    tool objects they share. */
module Executor {
  import opened Json
  import opened Types
  import opened Trace
  import opened Tools

  /** One requested call: the tool whose lock it needs, if it gets that far, and what it
      comes to. */
  datatype Work = Work(call: ToolCall, tool: Option<nat>, output: ToolOutput)

  datatype Execution = Execution(call: ToolCall, output: ToolOutput)

  /** Where one call stands: its thread created, its start reported, inside the tool's code
      with the lock held, out of it again, its end reported. */
  datatype Stage = Waiting | Spawned | Started | Inside | Left | Finished

  /** Where the collecting thread stands: launching a batch, collecting it, collecting what
      was launched before a thread could not be created, executing alone, returned. */
  datatype Phase = Launching | Collecting | Draining | Alone | Done

  /** `offset`, `launched` and `index` are the collecting thread's own counters, `index` being
      that of the loop it is in. A future is the position of the call its thread captured, and
      `cursor` counts the futures of this batch whose results have been taken. */
  datatype Job = Job(
    works: seq<Work>, width: nat, phase: Phase, offset: nat, launched: nat, index: nat,
    futures: seq<nat>, cursor: nat,
    stages: seq<Stage>, results: seq<Execution>, invoked: seq<nat>, events: seq<TraceEvent>)

  datatype System = System(jobs: seq<Job>, locks: map<nat, (nat, nat)>)

  datatype Action =
    | Launch | LaunchFails | BatchFull | Collect | NextBatch | Drained | Return
    | Start(i: nat) | Enter(i: nat) | Leave(i: nat) | Finish(i: nat)

  function Min(a: nat, b: nat): (least: nat) { if a < b then a else b }

  function WorkFor(registry: Registry, call: ToolCall, invocation: Invocation): (work: Work)
    ensures work.call == call
  {
    var admission := Admit(registry, call);
    Work(call, if admission.Admitted? then Some(admission.tool) else None, Conclude(call, admission, invocation))
  }

  /** A job at its start: alone when calls are not to run in parallel or there are fewer
      than two. */
  function Begin(works: seq<Work>, parallel: bool, maxParallel: nat): (job: Job)
    requires maxParallel >= 1
  {
    var alone := !parallel || |works| < 2;
    Job(works, if alone then 1 else Min(maxParallel, |works|), if alone then Alone else Launching, 0, 0, 0, [], 0,
        seq(|works|, i => Waiting), [], [], [])
  }

  /** Where the batch that begins at the offset ends. */
  function BatchEnd(job: Job): (end: nat)
  {
    Min(job.offset + job.width, |job.works|)
  }

  // ---- steps ----

  predicate Shape(job: Job)
  {
    |job.stages| == |job.works| && job.width >= 1
    && forall k | 0 <= k < |job.futures| :: job.futures[k] < |job.works|
  }

  predicate Can(job: Job, action: Action)
    requires Shape(job)
  {
    var n := |job.works|;
    match action
    case Launch => job.phase.Launching? && job.index < BatchEnd(job)
    case LaunchFails => job.phase.Launching? && job.index < BatchEnd(job)
    case BatchFull => job.phase.Launching? && job.index >= BatchEnd(job)
    case Collect =>
      if job.phase.Alone? then job.index < n && job.stages[job.index].Finished?
      else
        && (job.phase.Collecting? || job.phase.Draining?)
        && job.cursor < |job.futures| && job.stages[job.futures[job.cursor]].Finished?
    case NextBatch => job.phase.Collecting? && job.cursor >= |job.futures|
    case Drained => job.phase.Draining? && job.cursor >= |job.futures|
    case Return => job.phase.Alone? && job.index >= n
    case Start(i) => i < n && (job.stages[i].Spawned? || (job.phase.Alone? && i == job.index && job.stages[i].Waiting?))
    case Enter(i) => i < n && job.stages[i].Started? && job.works[i].tool.Some?
    case Leave(i) => i < n && job.stages[i].Inside?
    case Finish(i) => i < n && (job.stages[i].Left? || (job.stages[i].Started? && job.works[i].tool.None?))
  }

  function ExecutionOf(work: Work): (execution: Execution)
  {
    Execution(work.call, work.output)
  }

  function Act(job: Job, action: Action): (after: Job)
    requires Shape(job) && Can(job, action)
  {
    match action
    case Launch =>
      job.(stages := job.stages[job.index := Spawned], futures := job.futures + [job.index],
           launched := job.launched + 1, index := job.index + 1)
    case LaunchFails => job.(phase := Draining, cursor := 0)
    case BatchFull => job.(phase := Collecting, cursor := 0)
    case Collect =>
      if job.phase.Alone? then
        job.(results := job.results + [ExecutionOf(job.works[job.index])], index := job.index + 1)
      else
        job.(results := job.results + [ExecutionOf(job.works[job.futures[job.cursor]])], cursor := job.cursor + 1)
    case NextBatch =>
      var offset := job.offset + job.width;
      if offset < |job.works|
      then job.(offset := offset, launched := 0, index := offset, futures := [], phase := Launching)
      else job.(offset := offset, phase := Done)
    case Drained => job.(phase := Alone, index := job.offset + job.launched)
    case Return => job.(phase := Done)
    case Start(i) =>
      job.(stages := job.stages[i := Started], events := job.events + [ToolStart(job.works[i].call.id)])
    case Enter(i) => job.(stages := job.stages[i := Inside], invoked := job.invoked + [i])
    case Leave(i) => job.(stages := job.stages[i := Left])
    case Finish(i) =>
      var work := job.works[i];
      job.(stages := job.stages[i := Finished],
           events := job.events + [ToolEnd(work.call.id, work.output.isError)])
  }

  /** A tool's lock is free for whoever takes it first. */
  predicate Enabled(s: System, j: nat, action: Action)
  {
    && j < |s.jobs| && Shape(s.jobs[j]) && Can(s.jobs[j], action)
    && (action.Enter? ==> s.jobs[j].works[action.i].tool.value !in s.locks)
  }

  function Step(s: System, j: nat, action: Action): (after: System)
    requires Enabled(s, j, action)
  {
    var locks := match action
                 case Enter(i) => s.locks[s.jobs[j].works[i].tool.value := (j, i)]
                 case Leave(i) =>
                   if s.jobs[j].works[i].tool.Some? then s.locks - {s.jobs[j].works[i].tool.value} else s.locks
                 case _ => s.locks;
    System(s.jobs[j := Act(s.jobs[j], action)], locks)
  }

  // ---- invariants of one job ----

  predicate Active(stage: Stage) { stage.Spawned? || stage.Started? || stage.Inside? || stage.Left? }

  /** The counters agree with the results: the next result to be taken is that of the next
      call. */
  ghost predicate Aligned(job: Job)
  {
    var n := |job.works|;
    && |job.results| <= n
    && match job.phase
       case Launching =>
         job.offset < n && BatchLaunched(job) && job.index == job.offset + job.launched <= BatchEnd(job)
         && |job.results| == job.offset
       case Collecting =>
         job.offset < n && BatchLaunched(job) && job.offset + job.launched == BatchEnd(job)
         && job.cursor <= |job.futures| && |job.results| == job.offset + job.cursor
       case Draining =>
         job.offset < n && BatchLaunched(job) && job.offset + job.launched < BatchEnd(job)
         && job.cursor <= |job.futures| && |job.results| == job.offset + job.cursor
       case Alone => job.index == |job.results| && job.offset <= n
       case Done => |job.results| == n && job.offset <= n + job.width
  }

  /** The futures of the batch are those of the calls from its offset on. */
  ghost predicate BatchLaunched(job: Job)
  {
    job.launched == |job.futures| && forall k | 0 <= k < |job.futures| :: job.futures[k] == job.offset + k
  }

  ghost predicate Progress(job: Job)
    requires Shape(job)
  {
    var n, next := |job.works|, |job.results|;
    && Aligned(job)
    && (forall k | 0 <= k < next :: job.stages[k].Finished?)
    && (job.phase.Launching? || job.phase.Collecting? || job.phase.Draining? ==>
          Frontier(job, job.offset + job.launched))
    && (job.phase.Alone? ==>
          (next < n ==> !job.stages[next].Spawned?) && forall k | next < k < n :: job.stages[k].Waiting?)
  }

  /** Every call before `end` has a thread of its own, none after it has begun. */
  ghost predicate Frontier(job: Job, end: nat)
    requires Shape(job)
  {
    forall k | 0 <= k < |job.works| :: job.stages[k].Waiting? <==> k >= end
  }

  ghost predicate ResultsInOrder(job: Job)
  {
    |job.results| <= |job.works|
    && forall k | 0 <= k < |job.results| ::
         job.results[k] == ExecutionOf(job.works[k])
  }

  predicate Entered(stage: Stage) { stage.Inside? || stage.Left? || stage.Finished? }

  ghost predicate InvokedOnce(job: Job)
    requires Shape(job)
  {
    && (forall i :: i in job.invoked <==>
          0 <= i < |job.works| && job.works[i].tool.Some? && Entered(job.stages[i]))
    && (forall a, b | 0 <= a < b < |job.invoked| :: job.invoked[a] != job.invoked[b])
    && (forall i | 0 <= i < |job.works| :: job.stages[i].Inside? || job.stages[i].Left? ==> job.works[i].tool.Some?)
  }

  predicate DistinctIds(works: seq<Work>)
  {
    forall i, j | 0 <= i < j < |works| :: works[i].call.id != works[j].call.id
  }

  ghost function Ids(works: seq<Work>): (ids: set<string>)
  {
    set i | 0 <= i < |works| :: works[i].call.id
  }

  lemma {:induction false} IdsOfFront(works: seq<Work>)
    requires works != []
    ensures var n := |works| - 1;
            && Ids(works) == Ids(works[..n]) + {works[n].call.id}
            && (DistinctIds(works) ==> DistinctIds(works[..n]) && works[n].call.id !in Ids(works[..n]))
  {
    var n := |works| - 1;
    var front := works[..n];
    forall i | 0 <= i < |works| ensures works[i].call.id in Ids(front) + {works[n].call.id} {
      if i < n { assert works[i] == front[i]; }
    }
    forall i | 0 <= i < n ensures front[i].call.id in Ids(works) {
      assert works[i] == front[i];
    }
  }

  predicate Reported(stage: Stage) { stage.Started? || stage.Inside? || stage.Left? }

  ghost function RunningIds(job: Job): (ids: set<string>)
    requires Shape(job)
  {
    set i | 0 <= i < |job.works| && Reported(job.stages[i]) :: job.works[i].call.id
  }

  ghost function FinishedIds(job: Job): (ids: set<string>)
    requires Shape(job)
  {
    set i | 0 <= i < |job.works| && job.stages[i].Finished? :: job.works[i].call.id
  }

  ghost predicate EventsInOrder(job: Job)
    requires Shape(job)
  {
    DistinctIds(job.works) ==>
      AfterToolEvents(NO_CALLS, job.events) == Some(Calls(RunningIds(job), FinishedIds(job)))
  }

  ghost predicate JobInv(job: Job)
  {
    Shape(job) && Progress(job) && ResultsInOrder(job) && InvokedOnce(job) && EventsInOrder(job)
  }

  lemma {:induction false} BeginInv(works: seq<Work>, parallel: bool, maxParallel: nat)
    requires maxParallel >= 1
    ensures JobInv(Begin(works, parallel, maxParallel))
  {
    var job := Begin(works, parallel, maxParallel);
    assert forall i | 0 <= i < |works| :: job.stages[i] == Waiting;
    assert RunningIds(job) == {} && FinishedIds(job) == {};
  }

  lemma {:induction false} AlignedKept(job: Job, action: Action)
    requires Shape(job) && Aligned(job) && Can(job, action)
    requires action.Return? ==> |job.results| == |job.works|
    ensures Shape(Act(job, action)) && Aligned(Act(job, action))
  {
    hide ExecutionOf;
  }

  /** Steps of a worker leave the counters alone and move one call from one stage on. */
  lemma {:induction false} WorkerKeepsProgress(job: Job, action: Action)
    requires Shape(job) && Progress(job) && Can(job, action)
    requires action.Start? || action.Enter? || action.Leave? || action.Finish?
    ensures Shape(Act(job, action)) && Progress(Act(job, action))
  {
    AlignedKept(job, action);
    if job.phase.Alone? { IndexInStep(job); }
    hide Aligned, BatchLaunched, ExecutionOf;
  }

  lemma {:induction false} IndexInStep(job: Job)
    requires Aligned(job) && job.phase.Alone?
    ensures job.index == |job.results|
  {
  }

  lemma {:induction false} ProgressKept(job: Job, action: Action)
    requires Shape(job) && Progress(job) && Can(job, action)
    ensures Shape(Act(job, action)) && Progress(Act(job, action))
  {
    if action.Start? || action.Enter? || action.Leave? || action.Finish? {
      WorkerKeepsProgress(job, action);
    } else {
      AlignedKept(job, action);
      hide ExecutionOf;
    }
  }

  /** The result taken is that of the next call, whichever loop takes it: this is where the
      futures of a batch and the index of the fallback loop have to be the right ones. */
  lemma {:induction false} ResultsKept(job: Job, action: Action)
    requires Shape(job) && ResultsInOrder(job) && Aligned(job) && Can(job, action)
    ensures ResultsInOrder(Act(job, action))
  {
    if action.Collect? {
      assert job.phase.Alone? || job.futures[job.cursor] == job.offset + job.cursor;
    }
  }

  /** The call a step moves from one stage to another, if it moves one. */
  function Moved(job: Job, action: Action): (move: Option<(nat, Stage)>)
  {
    match action
    case Launch => Some((job.index, Spawned))
    case Start(i) => Some((i, Started))
    case Enter(i) => Some((i, Inside))
    case Leave(i) => Some((i, Left))
    case Finish(i) => Some((i, Finished))
    case _ => None
  }

  /** What a step does to the calls: the rest is the collecting thread's own. */
  lemma {:induction false} ActMoves(job: Job, action: Action)
    requires Shape(job) && Can(job, action)
    ensures var after := Act(job, action);
            && after.works == job.works && after.width == job.width
            && (match Moved(job, action)
                case None => after.stages == job.stages
                case Some((i, stage)) => i < |job.works| && after.stages == job.stages[i := stage])
            && after.invoked == (if action.Enter? then job.invoked + [action.i] else job.invoked)
            && (!action.Start? && !action.Finish? ==> after.events == job.events)
  {
    hide ExecutionOf;
  }

  /** Of a moved call: it enters its tool's code exactly in an `Enter` step, and only if it
      has a tool. */
  lemma {:induction false} MoveEnters(job: Job, action: Action)
    requires Shape(job) && Progress(job) && Can(job, action) && Moved(job, action).Some?
    ensures var (i, stage) := Moved(job, action).value;
            && i < |job.works|
            && (action.Enter? ==> i == action.i && !Entered(job.stages[i]) && job.works[i].tool.Some? && stage.Inside?)
            && (!action.Enter? && job.works[i].tool.Some? ==> (Entered(stage) <==> Entered(job.stages[i])))
            && (stage.Left? ==> job.stages[i].Inside?) && (stage.Inside? ==> action.Enter?)
  {
    assert action.Launch? ==> job.stages[job.index].Waiting?;
  }

  /** A call that enters its tool joins those invoked. */
  lemma {:induction false} InvokedGrows(job: Job, after: Job, i: nat)
    requires Shape(job) && InvokedOnce(job) && i < |job.works|
    requires job.works[i].tool.Some? && !Entered(job.stages[i])
    requires after.works == job.works && after.stages == job.stages[i := Inside] && after.invoked == job.invoked + [i]
    requires Shape(after)
    ensures InvokedOnce(after)
  {
    assert i !in job.invoked;
    assert forall k | 0 <= k < |job.works| && k != i :: after.stages[k] == job.stages[k];
    assert after.stages[i] == Inside;
  }

  lemma {:induction false} InvokedStays(job: Job, after: Job, move: Option<(nat, Stage)>)
    requires Shape(job) && InvokedOnce(job) && Shape(after)
    requires after.works == job.works && after.invoked == job.invoked
    requires match move
             case None => after.stages == job.stages
             case Some((i, stage)) =>
               && i < |job.works| && after.stages == job.stages[i := stage]
               && (job.works[i].tool.Some? ==> (Entered(stage) <==> Entered(job.stages[i])))
               && (stage.Left? ==> job.stages[i].Inside?) && !stage.Inside?
    ensures InvokedOnce(after)
  {
    hide Entered;
  }

  lemma {:induction false} InvokedKept(job: Job, action: Action)
    requires Shape(job) && InvokedOnce(job) && Can(job, action)
    requires Progress(job)
    ensures Shape(Act(job, action)) && InvokedOnce(Act(job, action))
  {
    ProgressKept(job, action);
    ActMoves(job, action);
    var move := Moved(job, action);
    if move.Some? { MoveEnters(job, action); }
    hide Progress, Act, Can, Entered, InvokedOnce;
    if action.Enter? {
      InvokedGrows(job, Act(job, action), action.i);
    } else {
      InvokedStays(job, Act(job, action), move);
    }
  }

  lemma {:induction false} StartReported(job: Job, i: nat)
    requires Shape(job) && EventsInOrder(job) && Can(job, Start(i))
    ensures EventsInOrder(Act(job, Start(i)))
  {
    var after := Act(job, Start(i));
    if DistinctIds(job.works) {
      var id := job.works[i].call.id;
      assert after.events[..|after.events| - 1] == job.events;
      assert id !in RunningIds(job) + FinishedIds(job);
      assert RunningIds(after) == RunningIds(job) + {id} by {
        assert after.stages[i].Started?;
      }
      assert FinishedIds(after) == FinishedIds(job);
    }
  }

  lemma {:induction false} FinishReported(job: Job, i: nat)
    requires Shape(job) && EventsInOrder(job) && Can(job, Finish(i))
    ensures EventsInOrder(Act(job, Finish(i)))
  {
    var after := Act(job, Finish(i));
    if DistinctIds(job.works) {
      var id := job.works[i].call.id;
      assert after.events[..|after.events| - 1] == job.events;
      assert id in RunningIds(job) by { assert Reported(job.stages[i]); }
      assert RunningIds(after) == RunningIds(job) - {id};
      assert FinishedIds(after) == FinishedIds(job) + {id} by {
        assert after.stages[i].Finished?;
      }
    }
  }

  lemma {:induction false} UnreportedKept(job: Job, after: Job)
    requires Shape(job) && Shape(after) && EventsInOrder(job)
    requires after.works == job.works && after.events == job.events
    requires forall k | 0 <= k < |job.works| ::
               && (Reported(after.stages[k]) <==> Reported(job.stages[k]))
               && (after.stages[k].Finished? <==> job.stages[k].Finished?)
    ensures EventsInOrder(after)
  {
    assert RunningIds(after) == RunningIds(job);
    assert FinishedIds(after) == FinishedIds(job);
  }

  lemma {:induction false} EventsKept(job: Job, action: Action)
    requires Shape(job) && EventsInOrder(job) && Can(job, action) && Progress(job)
    ensures Shape(Act(job, action)) && EventsInOrder(Act(job, action))
  {
    ProgressKept(job, action);
    ActMoves(job, action);
    assert action.Launch? ==> job.stages[job.index].Waiting?;
    hide EventsInOrder, RunningIds, FinishedIds, Act, Progress;
    match action
    case Start(i) => StartReported(job, i);
    case Finish(i) => FinishReported(job, i);
    case _ => UnreportedKept(job, Act(job, action));
  }

  lemma {:induction false} JobInvKept(job: Job, action: Action)
    requires JobInv(job) && Can(job, action)
    ensures JobInv(Act(job, action)) && Act(job, action).works == job.works && Act(job, action).width == job.width
  {
    ProgressKept(job, action);
    ResultsKept(job, action);
    InvokedKept(job, action);
    EventsKept(job, action);
    hide Progress, ResultsInOrder, InvokedOnce, EventsInOrder;
  }

  // ---- runs of a system ----

  /** Every run of the system is some schedule: which job acts next, and how. */
  function Run(s: System, schedule: seq<(nat, Action)>): (end: Option<System>)
  {
    if schedule == [] then Some(s)
    else
      var n := |schedule| - 1;
      match Run(s, schedule[..n])
      case None => None
      case Some(before) =>
        if Enabled(before, schedule[n].0, schedule[n].1)
        then Some(Step(before, schedule[n].0, schedule[n].1))
        else None
  }

  datatype Setup = Setup(works: seq<Work>, parallel: bool, maxParallel: nat)

  /** The system in which each of the given calls of `execute_tools` is about to start. */
  function Initial(setups: seq<Setup>): (s: System)
    requires forall j | 0 <= j < |setups| :: setups[j].maxParallel >= 1
  {
    System(seq(|setups|, j requires 0 <= j < |setups| =>
                           Begin(setups[j].works, setups[j].parallel, setups[j].maxParallel)), map[])
  }

  ghost predicate Reachable(setups: seq<Setup>, s: System)
  {
    && (forall j | 0 <= j < |setups| :: setups[j].maxParallel >= 1)
    && exists schedule :: Run(Initial(setups), schedule) == Some(s)
  }

  predicate Holds(s: System, tool: nat, j: nat, i: nat)
  {
    j < |s.jobs| && i < |s.jobs[j].works| && i < |s.jobs[j].stages|
    && s.jobs[j].works[i].tool == Some(tool) && s.jobs[j].stages[i].Inside?
  }

  /** A lock is held exactly by the one execution that is inside its tool. */
  ghost predicate LocksHeld(s: System)
  {
    forall tool: nat, j: nat, i: nat ::
      Holds(s, tool, j, i) <==> tool in s.locks && s.locks[tool] == (j, i)
  }

  ghost predicate SystemInv(setups: seq<Setup>, s: System)
  {
    && |s.jobs| == |setups|
    && (forall j | 0 <= j < |s.jobs| ::
          && JobInv(s.jobs[j]) && s.jobs[j].works == setups[j].works
          && setups[j].maxParallel >= 1
          && s.jobs[j].width == Begin(setups[j].works, setups[j].parallel, setups[j].maxParallel).width)
    && LocksHeld(s)
  }

  /** One pair of a tool and a call: holding follows the lock through a step. */
  lemma {:induction false} LockKept(s: System, j: nat, action: Action, tool: nat, k: nat, i: nat)
    requires LocksHeld(s) && Enabled(s, j, action) && JobInv(s.jobs[j])
    ensures Holds(Step(s, j, action), tool, k, i)
            <==> tool in Step(s, j, action).locks && Step(s, j, action).locks[tool] == (k, i)
  {
    var after := Step(s, j, action);
    var job := s.jobs[j];
    ActMoves(job, action);
    assert action.Leave? ==> job.works[action.i].tool.Some?;
    hide JobInv, Act;
    assert Holds(s, tool, k, i) <==> tool in s.locks && s.locks[tool] == (k, i);
    if action.Leave? {
      assert Holds(s, job.works[action.i].tool.value, j, action.i);
    }
    hide LocksHeld;
    if k != j {
      assert Holds(after, tool, k, i) <==> Holds(s, tool, k, i);
    }
  }

  lemma {:induction false} LocksKept(s: System, j: nat, action: Action)
    requires LocksHeld(s) && Enabled(s, j, action) && JobInv(s.jobs[j])
    ensures LocksHeld(Step(s, j, action))
  {
    hide JobInv, Act, Holds, Can;
    forall tool: nat, k: nat, i: nat
      ensures Holds(Step(s, j, action), tool, k, i)
              <==> tool in Step(s, j, action).locks && Step(s, j, action).locks[tool] == (k, i)
    {
      LockKept(s, j, action, tool, k, i);
    }
  }

  lemma {:induction false} ReachableInv(setups: seq<Setup>, schedule: seq<(nat, Action)>)
    requires forall j | 0 <= j < |setups| :: setups[j].maxParallel >= 1
    requires Run(Initial(setups), schedule).Some?
    ensures SystemInv(setups, Run(Initial(setups), schedule).value)
  {
    hide JobInv, Act, Can;
    if schedule == [] {
      forall j | 0 <= j < |setups| ensures JobInv(Initial(setups).jobs[j]) {
        BeginInv(setups[j].works, setups[j].parallel, setups[j].maxParallel);
      }
    } else {
      var n := |schedule| - 1;
      ReachableInv(setups, schedule[..n]);
      var before := Run(Initial(setups), schedule[..n]).value;
      var (j, action) := schedule[n];
      LocksKept(before, j, action);
      JobInvKept(before.jobs[j], action);
    }
  }

  /** What the tool ends of a batch say: of some call of it, whether it failed. */
  ghost predicate EndsTell(works: seq<Work>, events: seq<TraceEvent>)
  {
    forall k | 0 <= k < |events| && events[k].ToolEnd? :: EndTells(works, events[k])
  }

  ghost predicate EndTells(works: seq<Work>, event: TraceEvent)
  {
    exists i | 0 <= i < |works| :: event == ToolEnd(works[i].call.id, works[i].output.isError)
  }

  lemma {:induction false} EndsTellKept(job: Job, action: Action)
    requires Shape(job) && Can(job, action) && EndsTell(job.works, job.events)
    ensures Act(job, action).works == job.works && EndsTell(job.works, Act(job, action).events)
  {
    hide ExecutionOf;
    if action.Finish? {
      assert EndTells(job.works, ToolEnd(job.works[action.i].call.id, job.works[action.i].output.isError));
    }
  }

  lemma {:induction false} ReachableEndsTell(setups: seq<Setup>, schedule: seq<(nat, Action)>)
    requires forall j | 0 <= j < |setups| :: setups[j].maxParallel >= 1
    requires Run(Initial(setups), schedule).Some?
    ensures var s := Run(Initial(setups), schedule).value;
            && |s.jobs| == |setups|
            && forall j | 0 <= j < |s.jobs| ::
                 s.jobs[j].works == setups[j].works && EndsTell(setups[j].works, s.jobs[j].events)
  {
    if schedule != [] {
      var n := |schedule| - 1;
      ReachableEndsTell(setups, schedule[..n]);
      var before := Run(Initial(setups), schedule[..n]).value;
      var (j, action) := schedule[n];
      EndsTellKept(before.jobs[j], action);
      hide Act, Can, Shape, EndsTell;
    }
  }

  // ---- safety ----

  /** No two executions are inside the code of one tool object at once, whichever jobs
      they belong to. */
  lemma {:induction false} OneInsideEachTool(setups: seq<Setup>, s: System, tool: nat, j: nat, i: nat, k: nat, m: nat)
    requires Reachable(setups, s)
    requires Holds(s, tool, j, i) && Holds(s, tool, k, m)
    ensures j == k && i == m
  {
    var schedule :| Run(Initial(setups), schedule) == Some(s);
    ReachableInv(setups, schedule);
  }

  ghost function ActiveCalls(job: Job): (active: set<int>)
    requires Shape(job)
  {
    set i | 0 <= i < |job.works| && Active(job.stages[i])
  }

  ghost function Interval(low: int, count: nat): (all: set<int>)
    ensures forall i :: i in all <==> low <= i < low + count
    ensures |all| == count
  {
    if count == 0 then {} else Interval(low, count - 1) + {low + count - 1}
  }

  lemma {:induction false} IntervalSize(low: int, count: nat, s: set<int>)
    requires forall i | i in s :: low <= i < low + count
    ensures |s| <= count
  {
    var all := Interval(low, count);
    assert all == s + (all - s);
  }

  lemma {:induction false} ActiveBounded(job: Job)
    requires Shape(job) && Progress(job)
    ensures |ActiveCalls(job)| <= job.width && |ActiveCalls(job)| <= |job.works|
  {
    var active := ActiveCalls(job);
    IntervalSize(0, |job.works|, active);
    if job.phase.Alone? {
      IntervalSize(|job.results|, 1, active);
    } else if !job.phase.Done? {
      IntervalSize(job.offset, job.launched, active);
    } else {
      assert active == {};
    }
  }

  /** At most `max_parallel_tool_calls` executions of one job are under way, in every batch,
      between batches and after a thread could not be created. */
  lemma {:induction false} ParallelismBounded(setups: seq<Setup>, s: System, j: nat)
    requires Reachable(setups, s) && j < |s.jobs|
    ensures j < |setups| && Shape(s.jobs[j])
    ensures |ActiveCalls(s.jobs[j])| <= Min(setups[j].maxParallel, |setups[j].works|)
  {
    var schedule :| Run(Initial(setups), schedule) == Some(s);
    ReachableInv(setups, schedule);
    ActiveBounded(s.jobs[j]);
  }

  /** The limit is not just kept: for any calls there is a run in which as many of them as the
      limit allows are under way at once. */
  lemma {:induction false} ParallelismReached(works: seq<Work>, maxParallel: nat) returns (s: System)
    requires |works| >= 2 && maxParallel >= 1
    ensures Reachable([Setup(works, true, maxParallel)], s) && |s.jobs| == 1 && Shape(s.jobs[0])
    ensures |ActiveCalls(s.jobs[0])| == Min(maxParallel, |works|)
  {
    var setups := [Setup(works, true, maxParallel)];
    var k := Min(maxParallel, |works|);
    var schedule := Launches(works, maxParallel, k);
    s := System([Launched(works, maxParallel, k)], map[]);
    assert Run(Initial(setups), schedule) == Some(s);
    assert ActiveCalls(s.jobs[0]) == Interval(0, k);
  }

  /** The job when its first `k` threads have been created. */
  function Launched(works: seq<Work>, maxParallel: nat, k: nat): (job: Job)
    requires k <= |works|
  {
    Job(works, Min(maxParallel, |works|), Launching, 0, k, k, seq(k, i requires 0 <= i < k => i), 0,
        seq(|works|, i requires 0 <= i < |works| => if i < k then Spawned else Waiting), [], [], [])
  }

  lemma {:induction false} Launches(works: seq<Work>, maxParallel: nat, k: nat)
    returns (schedule: seq<(nat, Action)>)
    requires |works| >= 2 && maxParallel >= 1 && k <= Min(maxParallel, |works|)
    ensures Run(Initial([Setup(works, true, maxParallel)]), schedule)
            == Some(System([Launched(works, maxParallel, k)], map[]))
  {
    var start := Initial([Setup(works, true, maxParallel)]);
    if k == 0 {
      schedule := [];
      assert start.jobs[0] == Launched(works, maxParallel, 0);
      assert start == System([Launched(works, maxParallel, 0)], map[]);
    } else {
      schedule := Launches(works, maxParallel, k - 1);
      var job, after := Launched(works, maxParallel, k - 1), Launched(works, maxParallel, k);
      assert Can(job, Launch) && Shape(job);
      assert Act(job, Launch).stages == after.stages && Act(job, Launch).futures == after.futures;
      var s := System([job], map[]);
      assert Step(s, 0, Launch) == System([after], map[]);
      hide Act, Can, Initial, Launched;
      RunThenStep(start, schedule, 0, Launch);
      schedule := schedule + [(0, Launch)];
    }
  }

  /** A job that returned: result i belongs to call i, the code of a tool ran exactly once
      for each call that was admitted to it and for no other, and each call's start and end
      were reported once, in order. */
  ghost predicate FullyExecuted(works: seq<Work>, results: seq<Execution>, invoked: seq<nat>, events: seq<TraceEvent>)
  {
    && |results| == |works|
    && (forall i | 0 <= i < |works| :: results[i] == Execution(works[i].call, works[i].output))
    && (forall i :: i in invoked <==> 0 <= i < |works| && works[i].tool.Some?)
    && (forall a, b | 0 <= a < b < |invoked| :: invoked[a] != invoked[b])
    && (DistinctIds(works) ==>
          AfterToolEvents(NO_CALLS, events)
          == Some(Calls({}, Ids(works))))
    && EndsTell(works, events)
  }

  lemma {:induction false} DoneJobComplete(job: Job)
    requires JobInv(job) && job.phase.Done? && EndsTell(job.works, job.events)
    ensures FullyExecuted(job.works, job.results, job.invoked, job.events)
  {
    assert RunningIds(job) == {};
    assert FinishedIds(job) == Ids(job.works);
  }

  /** Every interleaving, with thread creation failing anywhere or nowhere, gives a job
      that returns the results the one-by-one loop gives. */
  lemma {:induction false} ReturnedJobComplete(setups: seq<Setup>, s: System, j: nat)
    requires Reachable(setups, s) && j < |s.jobs| && s.jobs[j].phase.Done?
    ensures j < |setups|
    ensures FullyExecuted(setups[j].works, s.jobs[j].results, s.jobs[j].invoked, s.jobs[j].events)
  {
    var schedule :| Run(Initial(setups), schedule) == Some(s);
    ReachableInv(setups, schedule);
    ReachableEndsTell(setups, schedule);
    hide EndsTell;
    DoneJobComplete(s.jobs[j]);
  }

  // ---- every run can go on until all jobs have returned, and has to ----

  /** What a job can do when it waits for no lock. */
  lemma {:induction false} JobCanAct(job: Job) returns (action: Action)
    requires JobInv(job) && !job.phase.Done?
    requires forall i | 0 <= i < |job.works| :: !job.stages[i].Inside?
    ensures Can(job, action)
  {
    var next := |job.results|;
    if job.phase.Launching? {
      action := if job.index < BatchEnd(job) then Launch else BatchFull;
    } else if !job.phase.Alone? && job.cursor >= |job.futures| {
      action := if job.phase.Collecting? then NextBatch else Drained;
    } else if job.phase.Alone? && job.index >= |job.works| {
      action := Return;
    } else {
      assert !job.phase.Alone? ==> job.futures[job.cursor] == next;
      var stage := job.stages[next];
      action := if stage.Finished? then Collect
                else if stage.Waiting? || stage.Spawned? then Start(next)
                else if stage.Started? && job.works[next].tool.Some? then Enter(next)
                else Finish(next);
    }
  }

  /** The protocol never gets stuck: while some job has not returned, some step can be taken. */
  lemma {:induction false} NeverStuck(setups: seq<Setup>, s: System, unfinished: nat) returns (j: nat, action: Action)
    requires Reachable(setups, s)
    requires unfinished < |s.jobs| && !s.jobs[unfinished].phase.Done?
    ensures Enabled(s, j, action)
  {
    var schedule :| Run(Initial(setups), schedule) == Some(s);
    ReachableInv(setups, schedule);
    if s.locks != map[] {
      var tool :| tool in s.locks;
      j, action := s.locks[tool].0, Leave(s.locks[tool].1);
      assert Holds(s, tool, s.locks[tool].0, s.locks[tool].1);
      assert JobInv(s.jobs[j]);
    } else {
      j := unfinished;
      var job := s.jobs[j];
      assert JobInv(job);
      forall i | 0 <= i < |job.works| ensures !job.stages[i].Inside? {
        assert job.stages[i].Inside? ==> job.works[i].tool.Some? && Holds(s, job.works[i].tool.value, j, i);
      }
      action := JobCanAct(job);
    }
  }

  function StageRank(stage: Stage): (rank: nat)
    ensures rank <= 5
  {
    match stage
    case Waiting => 0
    case Spawned => 1
    case Started => 2
    case Inside => 3
    case Left => 4
    case Finished => 5
  }

  function StagesRank(stages: seq<Stage>): (rank: nat)
    ensures rank <= 5 * |stages|
  {
    if stages == [] then 0 else StageRank(stages[0]) + StagesRank(stages[1..])
  }

  lemma {:induction false} StagesRankUpdate(stages: seq<Stage>, i: nat, stage: Stage)
    requires i < |stages|
    ensures StagesRank(stages[i := stage]) == StagesRank(stages) - StageRank(stages[i]) + StageRank(stage)
  {
    if i > 0 {
      assert stages[i := stage][1..] == stages[1..][i - 1 := stage];
      StagesRankUpdate(stages[1..], i - 1, stage);
    }
  }

  function PhaseRank(phase: Phase): (rank: nat)
  {
    match phase
    case Launching => 0
    case Collecting => 1
    case Draining => 2
    case Alone => 3
    case Done => 4
  }

  /** How far a job has got. */
  function Advance(job: Job): (n: nat)
  {
    StagesRank(job.stages) + |job.results| + 2 * job.offset + PhaseRank(job.phase)
  }

  lemma {:induction false} AdvanceGrows(job: Job, action: Action)
    requires JobInv(job) && Can(job, action)
    ensures Advance(Act(job, action)) > Advance(job)
  {
    hide InvokedOnce, EventsInOrder, ResultsInOrder, StagesRank, ExecutionOf;
    match action
    case Launch => StagesRankUpdate(job.stages, job.index, Spawned);
    case Start(i) => StagesRankUpdate(job.stages, i, Started);
    case Enter(i) => StagesRankUpdate(job.stages, i, Inside);
    case Leave(i) => StagesRankUpdate(job.stages, i, Left);
    case Finish(i) => StagesRankUpdate(job.stages, i, Finished);
    case _ =>
  }

  lemma {:induction false} AdvanceBounded(job: Job)
    requires JobInv(job)
    ensures Advance(job) <= 8 * |job.works| + 2 * job.width + 4
  {
  }

  function TotalAdvance(jobs: seq<Job>): (n: nat)
  {
    if jobs == [] then 0 else Advance(jobs[0]) + TotalAdvance(jobs[1..])
  }

  function Budget(jobs: seq<Job>): (n: nat)
  {
    if jobs == [] then 0 else 8 * |jobs[0].works| + 2 * jobs[0].width + 4 + Budget(jobs[1..])
  }

  lemma {:induction false} TotalAdvanceGrows(jobs: seq<Job>, j: nat, after: Job)
    requires j < |jobs| && Advance(after) > Advance(jobs[j])
    requires after.works == jobs[j].works && after.width == jobs[j].width
    ensures TotalAdvance(jobs[j := after]) > TotalAdvance(jobs)
    ensures Budget(jobs[j := after]) == Budget(jobs)
  {
    hide Advance;
    if j > 0 {
      assert jobs[j := after][1..] == jobs[1..][j - 1 := after];
      TotalAdvanceGrows(jobs[1..], j - 1, after);
    }
  }

  lemma {:induction false} TotalAdvanceBounded(jobs: seq<Job>)
    requires forall j | 0 <= j < |jobs| :: JobInv(jobs[j])
    ensures TotalAdvance(jobs) <= Budget(jobs)
  {
    hide Advance, JobInv;
    if jobs != [] {
      AdvanceBounded(jobs[0]);
      forall j | 0 <= j < |jobs[1..]| ensures JobInv(jobs[1..][j]) { assert jobs[1..][j] == jobs[j + 1]; }
      TotalAdvanceBounded(jobs[1..]);
    }
  }

  lemma {:induction false} ScheduleAdvances(setups: seq<Setup>, schedule: seq<(nat, Action)>)
    requires forall j | 0 <= j < |setups| :: setups[j].maxParallel >= 1
    requires Run(Initial(setups), schedule).Some?
    ensures var s := Run(Initial(setups), schedule).value;
            |schedule| <= TotalAdvance(s.jobs) && Budget(s.jobs) == Budget(Initial(setups).jobs)
  {
    hide JobInv, Act, Can, Begin, Advance, Budget, TotalAdvance;
    if schedule != [] {
      var n := |schedule| - 1;
      ScheduleAdvances(setups, schedule[..n]);
      ReachableInv(setups, schedule[..n]);
      var before := Run(Initial(setups), schedule[..n]).value;
      var (j, action) := schedule[n];
      AdvanceGrows(before.jobs[j], action);
      JobInvKept(before.jobs[j], action);
      TotalAdvanceGrows(before.jobs, j, Act(before.jobs[j], action));
    }
  }

  /** No run is longer than a bound known before it starts, so with `NeverStuck` every run
      that goes on as long as it can ends with all jobs returned. */
  lemma {:induction false} RunsEnd(setups: seq<Setup>, schedule: seq<(nat, Action)>)
    requires forall j | 0 <= j < |setups| :: setups[j].maxParallel >= 1
    requires Run(Initial(setups), schedule).Some?
    ensures |schedule| <= Budget(Initial(setups).jobs)
  {
    ScheduleAdvances(setups, schedule);
    ReachableInv(setups, schedule);
    hide JobInv, Act, Can, Begin, Advance, Budget, TotalAdvance;
    TotalAdvanceBounded(Run(Initial(setups), schedule).value.jobs);
  }

  lemma {:induction false} RunThenStep(s: System, schedule: seq<(nat, Action)>, j: nat, action: Action)
    requires Run(s, schedule).Some? && Enabled(Run(s, schedule).value, j, action)
    ensures Run(s, schedule + [(j, action)]) == Some(Step(Run(s, schedule).value, j, action))
  {
    assert (schedule + [(j, action)])[..|schedule|] == schedule;
  }

  predicate AllReturned(s: System)
  {
    forall j | 0 <= j < |s.jobs| :: s.jobs[j].phase.Done?
  }

  /** However far a run has got, it can be carried on until every job has returned. */
  lemma {:induction false} RunsToCompletion(setups: seq<Setup>, schedule: seq<(nat, Action)>)
    returns (full: seq<(nat, Action)>)
    requires forall j | 0 <= j < |setups| :: setups[j].maxParallel >= 1
    requires Run(Initial(setups), schedule).Some?
    ensures schedule <= full && Run(Initial(setups), full).Some?
    ensures AllReturned(Run(Initial(setups), full).value) && |Run(Initial(setups), full).value.jobs| == |setups|
    decreases Budget(Initial(setups).jobs) - |schedule|
  {
    hide Initial, Step, Enabled, Budget, Run;
    ReachableInv(setups, schedule);
    var s := Run(Initial(setups), schedule).value;
    if AllReturned(s) {
      full := schedule;
    } else {
      var j: nat :| j < |s.jobs| && !s.jobs[j].phase.Done?;
      var k, action := NeverStuck(setups, s, j);
      RunThenStep(Initial(setups), schedule, k, action);
      RunsEnd(setups, schedule + [(k, action)]);
      full := RunsToCompletion(setups, schedule + [(k, action)]);
    }
  }
}
