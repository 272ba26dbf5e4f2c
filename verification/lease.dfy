/** The session's lease as a protocol: any number of threads, each step of each public
    operation taken separately, the history mutex held across check and change. */
module LeaseProtocol {
  import opened Json
  import opened Types
  import opened Session

  /** Where a thread stands in an operation that holds the mutex. `Passed` has seen that
      no run is active and has not changed anything yet. */
  datatype Stage =
    | Outside
    | AppendLocked(message: Message) | AppendPassed(message: Message)
    | ClearLocked | ClearPassed
    | SetLocked(text: string) | SetPassed(text: string)
    | AcquireLocked
    | ClientLocked(message: Message)
    | SnapshotLocked

  datatype State = State(
    mutex: Option<nat>, active: bool, messages: seq<Message>, system: Option<string>,
    stages: map<nat, Stage>,
    live: map<nat, nat>,          // leases that own the session, and the thread that has each
    ended: set<nat>,              // leases that were moved from or destroyed
    acquired: nat, released: nat,
    snapshots: seq<seq<Message>>) // what the current run has read so far

  datatype Action =
    | Lock(stage: Stage) | Check | Change
    | MoveLease(from: nat, to: nat) | DestroyLease(lease: nat)

  function StageOf(s: State, t: nat): (stage: Stage)
  {
    if t in s.stages then s.stages[t] else Outside
  }

  predicate Generating(s: State, t: nat)
  {
    exists lease | lease in s.live :: s.live[lease] == t
  }

  predicate MayLock(s: State, t: nat, stage: Stage)
  {
    match stage
    case AppendLocked(m) => !m.role.SystemRole?
    case ClearLocked => true
    case SetLocked(text) => text != []
    case AcquireLocked => true
    case ClientLocked(m) => Generating(s, t) && !m.role.SystemRole?
    case SnapshotLocked => true
    case _ => false
  }

  predicate Enabled(s: State, t: nat, action: Action)
  {
    match action
    case Lock(stage) => StageOf(s, t).Outside? && s.mutex.None? && MayLock(s, t, stage)
    case Check => StageOf(s, t).AppendLocked? || StageOf(s, t).ClearLocked? || StageOf(s, t).SetLocked?
    case Change =>
      var stage := StageOf(s, t);
      stage.AppendPassed? || stage.ClearPassed? || stage.SetPassed? || stage.AcquireLocked?
      || stage.ClientLocked? || stage.SnapshotLocked?
    case MoveLease(from, to) =>
      from in s.live && s.live[from] == t && to !in s.live && to !in s.ended
    case DestroyLease(lease) =>
      StageOf(s, t).Outside? && (lease in s.ended || (lease in s.live && s.live[lease] == t))
  }

  function Unlock(s: State, t: nat): (after: State)
  {
    s.(mutex := None, stages := s.stages[t := Outside])
  }

  /** A lease id that was never used. */
  function FreshLease(s: State): (lease: nat)
    ensures lease !in s.live && lease !in s.ended
  {
    Largest(s.live.Keys + s.ended) + 1
  }

  function Largest(ids: set<nat>): (largest: nat)
    ensures forall id | id in ids :: id <= largest
  {
    if ids == {} then 0
    else
      LargestExists(ids);
      var top: nat :| Bounds(ids, top);
      top
  }

  predicate Bounds(ids: set<nat>, top: nat)
  {
    top in ids && forall id | id in ids :: id <= top
  }

  lemma {:induction false} LargestExists(ids: set<nat>)
    requires ids != {}
    ensures exists top: nat :: Bounds(ids, top)
    decreases |ids|
  {
    var x :| x in ids;
    var rest := ids - {x};
    assert ids == rest + {x};
    if rest == {} {
      assert Bounds(ids, x);
    } else {
      LargestExists(rest);
      var top: nat :| Bounds(rest, top);
      assert Bounds(ids, if x <= top then top else x);
    }
  }

  function Step(s: State, t: nat, action: Action): (after: State)
    requires Enabled(s, t, action)
  {
    match action
    case Lock(stage) => s.(mutex := Some(t), stages := s.stages[t := stage])
    case Check =>
      if s.active then Unlock(s, t)
      else
        (match StageOf(s, t)
         case AppendLocked(m) => s.(stages := s.stages[t := AppendPassed(m)])
         case ClearLocked => s.(stages := s.stages[t := ClearPassed])
         case SetLocked(text) =>
           if s.messages != [] then Unlock(s, t) else s.(stages := s.stages[t := SetPassed(text)])
         case _ => s)
    case Change =>
      var done := Unlock(s, t);
      (match StageOf(s, t)
       case AppendPassed(m) => done.(messages := s.messages + [m])
       case ClearPassed => done.(messages := [])
       case SetPassed(text) => done.(system := Some(text))
       case AcquireLocked =>
         if s.active then done
         else done.(active := true, live := s.live[FreshLease(s) := t], acquired := s.acquired + 1, snapshots := [])
       case ClientLocked(m) => done.(messages := s.messages + [m])
       case SnapshotLocked =>
         if Generating(s, t) then done.(snapshots := s.snapshots + [s.messages]) else done
       case _ => done)
    case MoveLease(from, to) =>
      s.(live := (s.live - {from})[to := t], ended := s.ended + {from})
    case DestroyLease(lease) =>
      if lease in s.live
      then s.(active := false, live := s.live - {lease}, ended := s.ended + {lease}, released := s.released + 1)
      else s
  }

  // ---- invariant ----

  predicate Passed(stage: Stage) { stage.AppendPassed? || stage.ClearPassed? || stage.SetPassed? }

  ghost predicate MutexInv(s: State)
  {
    forall t: nat :: !StageOf(s, t).Outside? <==> s.mutex == Some(t)
  }

  /** At most one lease is live, and the flag says whether there is one. */
  ghost predicate LeaseInv(s: State)
  {
    && (forall a, b | a in s.live && b in s.live :: a == b)
    && (s.active <==> s.live != map[])
    && s.acquired == s.released + (if s.active then 1 else 0)
    && s.live.Keys !! s.ended
  }

  ghost predicate StagesInv(s: State)
  {
    forall t: nat ::
      && (Passed(StageOf(s, t)) ==> !s.active)
      && (StageOf(s, t).SetPassed? ==> s.messages == [] && StageOf(s, t).text != [])
      && (StageOf(s, t).SetLocked? ==> StageOf(s, t).text != [])
      && (StageOf(s, t).ClientLocked? ==> Generating(s, t) && !StageOf(s, t).message.role.SystemRole?)
      && (StageOf(s, t).AppendLocked? || StageOf(s, t).AppendPassed? ==> !StageOf(s, t).message.role.SystemRole?)
  }

  /** What a run has read never shrinks or changes under it. */
  ghost predicate SnapshotsInv(s: State)
  {
    s.active ==>
      && (forall i, j | 0 <= i <= j < |s.snapshots| :: s.snapshots[i] <= s.snapshots[j])
      && (forall i | 0 <= i < |s.snapshots| :: s.snapshots[i] <= s.messages)
  }

  ghost predicate Inv(s: State)
  {
    && MutexInv(s) && LeaseInv(s) && StagesInv(s) && SnapshotsInv(s)
    && NoSystemMessage(s.messages) && (s.system.Some? ==> s.system.value != [])
  }

  function Restored(options: SessionOptions): (s: State)
  {
    State(None, false, options.messages, options.system, map[], map[], {}, 0, 0, [])
  }

  function Run(s: State, schedule: seq<(nat, Action)>): (end: Option<State>)
  {
    if schedule == [] then Some(s)
    else
      var n := |schedule| - 1;
      match Run(s, schedule[..n])
      case None => None
      case Some(before) =>
        if Enabled(before, schedule[n].0, schedule[n].1)
        then Some(Step(before, schedule[n].0, schedule[n].1))
        else None
  }

  ghost predicate Reachable(options: SessionOptions, s: State)
  {
    && NoSystemMessage(options.messages) && (options.system.Some? ==> options.system.value != [])
    && exists schedule :: Run(Restored(options), schedule) == Some(s)
  }

  lemma {:induction false} LeaseKept(s: State, t: nat, action: Action)
    requires Enabled(s, t, action) && LeaseInv(s)
    ensures LeaseInv(Step(s, t, action))
  {
    hide FreshLease;
    var after := Step(s, t, action);
    match action
    case MoveLease(from, to) =>
      assert s.live - {from} == map[];
      assert to in after.live;
    case DestroyLease(lease) =>
      assert lease in s.live ==> s.live - {lease} == map[];
    case Change =>
      var newLease := FreshLease(s);
      assert newLease in s.live[newLease := t];
    case _ =>
  }

  lemma {:induction false} MutexKept(s: State, t: nat, action: Action)
    requires Enabled(s, t, action) && MutexInv(s)
    ensures MutexInv(Step(s, t, action))
  {
    var after := Step(s, t, action);
    assert !StageOf(s, t).Outside? <==> s.mutex == Some(t);
    forall u: nat ensures !StageOf(after, u).Outside? <==> after.mutex == Some(u) {
      assert !StageOf(s, u).Outside? <==> s.mutex == Some(u);
    }
  }

  lemma {:induction false} StagesKept(s: State, t: nat, action: Action)
    requires Enabled(s, t, action) && MutexInv(s) && LeaseInv(s) && StagesInv(s)
    ensures StagesInv(Step(s, t, action))
  {
    hide LeaseInv, FreshLease;
    var after := Step(s, t, action);
    forall u: nat
      ensures Passed(StageOf(after, u)) ==> !after.active
      ensures StageOf(after, u).SetPassed? ==> after.messages == [] && StageOf(after, u).text != []
      ensures StageOf(after, u).SetLocked? ==> StageOf(after, u).text != []
      ensures StageOf(after, u).ClientLocked? ==>
                Generating(after, u) && !StageOf(after, u).message.role.SystemRole?
      ensures StageOf(after, u).AppendLocked? || StageOf(after, u).AppendPassed? ==>
                !StageOf(after, u).message.role.SystemRole?
    {
      assert !StageOf(s, u).Outside? <==> s.mutex == Some(u);
      assert !StageOf(s, t).Outside? <==> s.mutex == Some(t);
      if StageOf(after, u).ClientLocked? {
        StillGenerating(s, t, action, u);
      }
    }
  }

  lemma {:induction false} StillGenerating(s: State, t: nat, action: Action, u: nat)
    requires Enabled(s, t, action) && MutexInv(s) && LeaseInv(s) && StagesInv(s)
    requires StageOf(Step(s, t, action), u).ClientLocked?
    ensures Generating(Step(s, t, action), u)
  {
    assert !StageOf(s, u).Outside? <==> s.mutex == Some(u);
    assert !StageOf(s, t).Outside? <==> s.mutex == Some(t);
    var after := Step(s, t, action);
    assert Generating(s, u);
    var lease :| lease in s.live && s.live[lease] == u;
    assert action.DestroyLease? ==> t != u && action.lease != lease;
    var kept := if action.MoveLease? then action.to else lease;
    assert kept in after.live && after.live[kept] == u;
  }

  lemma {:induction false} ReadStages(s: State, t: nat)
    requires StagesInv(s)
    ensures Passed(StageOf(s, t)) ==> !s.active
    ensures StageOf(s, t).AppendPassed? || StageOf(s, t).ClientLocked? ==> !StageOf(s, t).message.role.SystemRole?
    ensures StageOf(s, t).SetPassed? ==> StageOf(s, t).text != []
  {
  }

  lemma {:induction false} SnapshotsKept(s: State, t: nat, action: Action)
    requires Enabled(s, t, action) && StagesInv(s) && SnapshotsInv(s)
    ensures SnapshotsInv(Step(s, t, action))
  {
    ReadStages(s, t);
    hide StagesInv, FreshLease;
  }

  lemma {:induction false} InvKept(s: State, t: nat, action: Action)
    requires Enabled(s, t, action) && Inv(s)
    ensures Inv(Step(s, t, action))
  {
    LeaseKept(s, t, action);
    MutexKept(s, t, action);
    StagesKept(s, t, action);
    hide LeaseInv, MutexInv, FreshLease;
    assert Passed(StageOf(s, t)) ==> !s.active;
    SnapshotsKept(s, t, action);
    hide StagesInv, SnapshotsInv;
    assert StageOf(s, t).AppendPassed? || StageOf(s, t).ClientLocked? ==> !StageOf(s, t).message.role.SystemRole? by {
      ReadStages(s, t);
    }
    assert StageOf(s, t).SetPassed? ==> StageOf(s, t).text != [] by { ReadStages(s, t); }
  }

  lemma {:induction false} ReachableInv(options: SessionOptions, schedule: seq<(nat, Action)>)
    requires NoSystemMessage(options.messages) && (options.system.Some? ==> options.system.value != [])
    requires Run(Restored(options), schedule).Some?
    ensures Inv(Run(Restored(options), schedule).value)
  {
    if schedule != [] {
      hide Inv, Step, Enabled;
      var n := |schedule| - 1;
      ReachableInv(options, schedule[..n]);
      InvKept(Run(Restored(options), schedule[..n]).value, schedule[n].0, schedule[n].1);
    }
  }

  // ---- what the protocol guarantees ----

  /** One live lease at most; the session is active exactly while it lives; every lease
      that was acquired is released once, moves or not. */
  lemma {:induction false} OneLeaseAtATime(options: SessionOptions, s: State)
    requires Reachable(options, s)
    ensures forall a, b | a in s.live && b in s.live :: a == b
    ensures s.active <==> s.live != map[]
    ensures s.acquired == s.released + if s.active then 1 else 0
  {
    var schedule :| Run(Restored(options), schedule) == Some(s);
    ReachableInv(options, schedule);
  }

  /** While a run is active the history changes only by the appends of the thread that
      holds the lease, at its end, and the system instruction does not change. */
  lemma {:induction false} OnlyTheRunChangesHistory(options: SessionOptions, s: State, t: nat, action: Action)
    requires Reachable(options, s) && s.active && Enabled(s, t, action)
    ensures var after := Step(s, t, action);
            && after.system == s.system
            && (after.messages == s.messages
                || (Generating(s, t) && exists m: Message :: after.messages == s.messages + [m]))
    ensures NoSystemMessage(s.messages)
  {
    var schedule :| Run(Restored(options), schedule) == Some(s);
    ReachableInv(options, schedule);
    assert Passed(StageOf(s, t)) ==> !s.active;
    assert StageOf(s, t).ClientLocked? ==> Generating(s, t);
  }

  /** Every history a run reads is a prefix of every history it reads later. */
  lemma {:induction false} SnapshotsGrow(options: SessionOptions, s: State, i: nat, j: nat)
    requires Reachable(options, s) && s.active && i <= j < |s.snapshots|
    ensures s.snapshots[i] <= s.snapshots[j] <= s.messages
  {
    var schedule :| Run(Restored(options), schedule) == Some(s);
    ReachableInv(options, schedule);
  }

  // ---- what each operation does ----

  /** Nothing but the parts that an operation is about changes, and it leaves the mutex free. */
  predicate Untouched(s: State, after: State)
  {
    after.mutex == None && after.ended == s.ended && after.released == s.released
  }

  /** What an operation of thread `t` that began in `s` has done when it is over: what the
      session does to a single caller. */
  ghost predicate Effect(s: State, t: nat, stage: Stage, after: State)
  {
    && Untouched(s, after) && (forall u: nat :: StageOf(after, u) == StageOf(s, u))
    && (stage.SetLocked? || after.system == s.system)
    && (stage.AcquireLocked? || (after.active == s.active && after.live == s.live && after.acquired == s.acquired))
    && (stage.AcquireLocked? || stage.SnapshotLocked? || after.snapshots == s.snapshots)
    && match stage
       case AppendLocked(m) => after.messages == if s.active then s.messages else s.messages + [m]
       case ClientLocked(m) => after.messages == s.messages + [m]
       case ClearLocked => after.messages == if s.active then s.messages else []
       case SetLocked(text) =>
         after.messages == s.messages && after.system == if s.active || s.messages != [] then s.system else Some(text)
       case AcquireLocked =>
         && after.messages == s.messages && after.active
         && (s.active ==> after.live == s.live && after.acquired == s.acquired && after.snapshots == s.snapshots)
         && (!s.active ==>
               && after.acquired == s.acquired + 1 && after.snapshots == []
               && exists lease: nat :: lease !in s.live && lease !in s.ended && after.live == s.live[lease := t])
       case SnapshotLocked =>
         && after.messages == s.messages
         && after.snapshots == s.snapshots + if Generating(s, t) then [s.messages] else []
       case _ => false
  }

  /** The steps of an operation, taken one after the other. */
  function Steps(s: State, stage: Stage): (actions: seq<Action>)
  {
    if stage.AcquireLocked? || stage.ClientLocked? || stage.SnapshotLocked? then [Lock(stage), Change]
    else if s.active || (stage.SetLocked? && s.messages != []) then [Lock(stage), Check]
    else [Lock(stage), Check, Change]
  }

  ghost predicate Follows(s: State, t: nat, actions: seq<Action>, after: State)
    decreases |actions|
  {
    if actions == [] then s == after
    else Enabled(s, t, actions[0]) && Follows(Step(s, t, actions[0]), t, actions[1..], after)
  }

  /** A thread in no operation can begin any with the mutex free, appends for the client only
      under a lease of its own, and take it to its end; then it has done just that. */
  lemma {:induction false} OperationDone(s: State, t: nat, stage: Stage) returns (after: State)
    requires StageOf(s, t).Outside? && s.mutex.None?
    requires !stage.Outside? && !stage.AppendPassed? && !stage.ClearPassed? && !stage.SetPassed?
    requires stage.AppendLocked? || stage.ClientLocked? ==> !stage.message.role.SystemRole?
    requires stage.SetLocked? ==> stage.text != []
    requires stage.ClientLocked? ==> exists lease | lease in s.live :: s.live[lease] == t
    ensures Follows(s, t, Steps(s, stage), after) && Effect(s, t, stage, after)
  {
    hide FreshLease;
    var locked := Step(s, t, Lock(stage));
    var actions := Steps(s, stage);
    assert Generating(locked, t) <==> Generating(s, t);
    if |actions| == 2 {
      after := Step(locked, t, actions[1]);
      assert actions[1..] == [actions[1]] && actions[1..][1..] == [];
      assert Follows(locked, t, actions[1..], after);
    } else {
      var passed := Step(locked, t, Check);
      after := Step(passed, t, Change);
      assert actions[1..] == [Check, Change] && actions[1..][1..] == [Change] && [Change][1..] == [];
      assert Follows(passed, t, [Change], after);
      assert Follows(locked, t, [Check, Change], after);
    }
    if stage.AcquireLocked? && !s.active {
      var lease := FreshLease(locked);
      assert after.live == s.live[lease := t];
    }
  }

  /** What moving and destroying a lease do: ownership goes to the new lease, or the session is
      free; an ended lease does nothing. */
  lemma {:induction false} LeaseSteps(s: State, t: nat, action: Action)
    requires Enabled(s, t, action) && LeaseInv(s)
    ensures var after := Step(s, t, action);
            && (action.MoveLease? ==>
                  && after.live == map[action.to := t] && after.ended == s.ended + {action.from}
                  && after.(live := s.live, ended := s.ended) == s)
            && (action.DestroyLease? && action.lease in s.live ==>
                  && !after.active && after.live == map[] && after.ended == s.ended + {action.lease}
                  && after.released == s.released + 1
                  && after.messages == s.messages && after.system == s.system && after.stages == s.stages)
            && (action.DestroyLease? && action.lease in s.ended ==> after == s)
  {
    if action.MoveLease? { assert s.live - {action.from} == map[]; }
    if action.DestroyLease? && action.lease in s.live { assert s.live - {action.lease} == map[]; }
  }
}
