/** The work of the whole program: every step it takes by itself uses some of it up. There is
    no busy loop anywhere, and after Stop the program drains. */
module SystemDrain {
  import opened Basics
  import opened Sums
  import opened Config
  import opened Outstanding
  import opened SessionMachine
  import opened SessionInvariants
  import opened SessionTheorems
  import opened SessionDrain
  import opened SessionLifecycle
  import opened SystemMachine
  import opened SystemInvariants
  import opened SystemTheorems

  /** How many steps can follow from a task. An accepted client weighs most: it starts a
      coroutine, becomes a member, and makes room for the next session and its accept. */
  function TaskCost(t: Task): nat {
    match t
    case Accept(_, outcome) => if outcome == Underway then 4 else if outcome == Aborted then 3 else 18
    case Retry(outcome) => if outcome == Underway then 2 else if outcome == Accepted then 8 else 1
    case _ => 1
  }

  function WorkOf(c: ServerConfig): SessionState -> nat {
    s => Work(c, s)
  }

  /** The members that Stop has, or will have, to end. */
  function Owed(y: System): set<nat> {
    if y.stopping then y.ending else y.registry
  }

  function Load(c: ServerConfig, y: System): nat {
    SumOf(TaskCost, y.tasks) + SumOf(WorkOf(c), y.sessions) + 2 * |Owed(y)|
  }

  /** What comes from outside: the start, requests to stop, an accept, a timer or a signal
      that completes, and bytes that arrive. */
  predicate External(a: Action) {
    a.StartServer? || a.CompleteTask? || a.RequestStop? || (a.InSession? && a.event.Arrive?)
  }

  // ---- what the building blocks add ----

  lemma {:induction false} PostLoad(c: ServerConfig, y: System, t: Task)
    ensures Load(c, Post(y, t)) == Load(c, y) + TaskCost(t)
  {
    SumOfAppend(TaskCost, y.tasks, t);
  }

  lemma {:induction false} UpdateLoad(c: ServerConfig, y: System, id: nat, s: SessionState)
    requires id < |y.sessions|
    ensures Load(c, Update(y, id, s)) + Work(c, y.sessions[id]) == Load(c, y) + Total(c, y.sessions[id], s)
  {
    hide Work;
    SumOfReplace(WorkOf(c), y.sessions, id, s);
    SumOfAppend(TaskCost, y.tasks, Erase(id));
  }

  lemma {:induction false} AcceptLoad(c: ServerConfig, y: System)
    ensures Load(c, AcceptConnections(y)) <= Load(c, y) + 6
  {
    assert Work(c, NewSession()) == 2;
    var z := y.(sessions := y.sessions + [NewSession()]);
    hide Work, NewSession;
    SumOfAppend(WorkOf(c), y.sessions, NewSession());
    PostLoad(c, z, Accept(|y.sessions|, Underway));
  }

  lemma {:induction false} EndLoad(c: ServerConfig, y: System, id: nat, inline: bool)
    requires id < |y.sessions|
    ensures Load(c, EndSession(y, id, inline)) <= Load(c, y) + 1
  {
    hide Load, Update, Work, Total, DispatchEnd;
    DispatchWork(c, y.sessions[id], inline);
    UpdateLoad(c, y, id, DispatchEnd(y.sessions[id], inline));
  }

  lemma {:induction false} RegisterLoad(c: ServerConfig, y: System, id: nat)
    ensures Load(c, Register(y, id)) <= Load(c, y) + 2
  {
    hide SumOf;
    assert id in y.registry ==> y.registry + {id} == y.registry;
  }

  lemma {:induction false} SpawnedWork(c: ServerConfig, s: SessionState)
    ensures Work(c, s.(stage := Spawned, sourceOpen := true)) == Work(c, s)
  {
  }

  lemma {:induction false} SpawnLoad(c: ServerConfig, y: System, id: nat, inline: bool)
    requires id < |y.sessions| && Enabled(y.sessions[id], Spawn(inline))
    ensures Load(c, Update(y, id, Step(c, y.sessions[id], Spawn(inline)))) <= Load(c, y) + 6
  {
    var s := y.sessions[id];
    var t := s.(stage := Spawned, sourceOpen := true);
    SpawnedWork(c, s);
    hide Load, Update, Work, StartCoroutine;
    StartWork(c, t);
    BeginWork(c, t, Op(CoStart, Succeeded, 0, 0));
    UpdateLoad(c, y, id, Step(c, s, Spawn(inline)));
  }

  lemma {:induction false} OnAcceptLoad(c: ServerConfig, y: System, id: nat, outcome: Outcome, inline: bool)
    requires id < |y.sessions| && outcome != Underway
    requires outcome == Accepted ==> Enabled(y.sessions[id], Spawn(inline))
    ensures Load(c, OnAccept(c, y, id, outcome, inline)) < Load(c, y) + TaskCost(Accept(id, outcome))
  {
    hide Load, EndSession, Update, AcceptConnections, Step, Enabled, Post;
    var ended := EndSession(y, id, inline);
    EndLoad(c, y, id, inline);
    if outcome != Accepted {
      PostLoad(c, ended, Retry(Underway));
      EndStopping(y, id, inline);
    } else if y.stopping || |y.registry| >= c.maxConnections {
      AcceptLoad(c, ended);
    } else {
      RegisterLoad(c, y, id);
      SpawnLoad(c, Register(y, id), id, inline);
      AcceptLoad(c, Update(Register(y, id), id, Step(c, y.sessions[id], Spawn(inline))));
    }
  }

  lemma {:induction false} EndStopping(y: System, id: nat, inline: bool)
    requires id < |y.sessions|
    ensures EndSession(y, id, inline).stopping == y.stopping
  {
    hide DispatchEnd;
  }

  lemma {:induction false} CancelLoad(tasks: seq<Task>)
    ensures SumOf(TaskCost, CancelTasks(tasks)) <= SumOf(TaskCost, tasks)
    decreases |tasks|
  {
    if tasks != [] {
      var n := |tasks| - 1;
      CancelLoad(tasks[..n]);
      assert CancelTasks(tasks)[..n] == CancelTasks(tasks[..n]);
    }
  }

  lemma {:induction false} BeginStopLoad(c: ServerConfig, y: System)
    ensures Load(c, BeginStop(y)) <= Load(c, y)
  {
    CancelLoad(y.tasks);
    hide SumOf, CancelTasks;
  }

  lemma {:induction false} EraseLoad(c: ServerConfig, y: System, id: nat)
    ensures Load(c, y.(registry := y.registry - {id})) <= Load(c, y)
  {
    CardinalityShrinks(y.registry, id);
    hide SumOf;
  }

  lemma {:induction false} RemoveLoad(c: ServerConfig, y: System, i: nat)
    requires i < |y.tasks|
    ensures Load(c, y) == Load(c, y.(tasks := Remove(y.tasks, i))) + TaskCost(y.tasks[i])
  {
    SumOfRemove(TaskCost, y.tasks, i);
  }

  // ---- every step ----

  lemma {:induction false} RunTaskLoad(c: ServerConfig, y: System, i: nat, inline: bool)
    requires Can(y, RunTask(i, inline))
    ensures Load(c, Act(c, y, RunTask(i, inline))) < Load(c, y)
  {
    var z := y.(tasks := Remove(y.tasks, i));
    RemoveLoad(c, y, i);
    hide Load, Remove, OnAccept, AcceptConnections, BeginStop, Enabled;
    match y.tasks[i]
    case Accept(id, outcome) => OnAcceptLoad(c, z, id, outcome, inline);
    case Retry(_) => AcceptLoad(c, z);
    case Signal(_) => BeginStopLoad(c, z);
    case StopCall => BeginStopLoad(c, z);
    case Erase(id) => EraseLoad(c, z, id);
  }

  lemma {:induction false} EndNextLoad(c: ServerConfig, y: System, id: nat, inline: bool)
    requires Can(y, EndNext(id, inline)) && (y.ending != {} ==> y.stopping)
    ensures Load(c, Act(c, y, EndNext(id, inline))) < Load(c, y)
  {
    var z := EndSession(y, id, inline);
    hide Load, Update, DispatchEnd;
    UpdateKeeps(y, id, DispatchEnd(y.sessions[id], inline));
    EndLoad(c, y, id, inline);
    EndingLoad(c, z, id);
  }

  lemma {:induction false} EndingLoad(c: ServerConfig, y: System, id: nat)
    requires y.stopping && id in y.ending
    ensures Load(c, y.(ending := y.ending - {id})) + 2 == Load(c, y)
  {
    hide SumOf;
  }

  lemma {:induction false} CompleteTaskLoad(c: ServerConfig, y: System, i: nat, accepted: bool)
    requires i < |y.tasks|
    ensures Load(c, y.(tasks := y.tasks[i := Completed(y.tasks[i], accepted)])) <= Load(c, y) + 18
  {
    SumOfReplace(TaskCost, y.tasks, i, Completed(y.tasks[i], accepted));
  }

  lemma {:induction false} InSessionLoad(c: ServerConfig, y: System, id: nat, e: Event)
    requires Can(y, InSession(id, e)) && Inv(c, y.sessions[id])
    ensures var l := Load(c, Act(c, y, InSession(id, e)));
      if e.Arrive? then l <= Load(c, y) + ArrivalCost(c) else l < Load(c, y)
  {
    hide Load, Update, Work, Total, Inv, Step, Enabled, ArrivalCost;
    StepWork(c, y.sessions[id], e);
    UpdateLoad(c, y, id, Step(c, y.sessions[id], e));
  }

  lemma {:induction false} SessionInv(c: ServerConfig, y: System, id: nat)
    requires SystemInv(c, y) && id < |y.sessions|
    ensures Inv(c, y.sessions[id])
  {
    hide Inv, Held, Ended, Untouched, Distinct;
    assert SessionOk(c, y, id);
  }

  lemma {:induction false} EndingMeansStop(c: ServerConfig, y: System)
    requires SystemInv(c, y)
    ensures y.ending != {} ==> y.stopping
  {
    hide SessionsOk, Distinct;
  }

  lemma {:induction false} StartLoad(c: ServerConfig, y: System)
    ensures Load(c, AcceptConnections(Post(y.(started := true), Signal(Underway)))) <= Load(c, y) + 7
  {
    assert Load(c, y.(started := true)) == Load(c, y);
    hide Load, AcceptConnections;
    PostLoad(c, y.(started := true), Signal(Underway));
    AcceptLoad(c, Post(y.(started := true), Signal(Underway)));
  }

  lemma {:induction false} RequestLoad(c: ServerConfig, y: System, failure: bool)
    ensures Load(c, Post(y.(failed := y.failed || failure), StopCall)) == Load(c, y) + 1
  {
    var z := y.(failed := y.failed || failure);
    assert Load(c, z) == Load(c, y);
    hide Load;
    PostLoad(c, z, StopCall);
  }

  /** Whatever the program does by itself, at any time, lowers its load. */
  lemma {:induction false} ActLoad(c: ServerConfig, y: System, a: Action)
    requires SystemInv(c, y) && Can(y, a)
    ensures var l := Load(c, Act(c, y, a));
      if External(a) then l <= Load(c, y) + ArrivalCost(c) else l < Load(c, y)
  {
    hide SystemInv, Load, OnTask, Remove, EndNextSession, Update, AcceptConnections, Post, StatusResponse, Inv, Step, Enabled;
    match a
    case StartServer => StartLoad(c, y);
    case CompleteTask(i, accepted) => CompleteTaskLoad(c, y, i, accepted);
    case RunTask(i, inline) => RunTaskLoad(c, y, i, inline);
    case EndNext(id, inline) => EndingMeansStop(c, y); EndNextLoad(c, y, id, inline);
    case RequestStop(failure) => RequestLoad(c, y, failure);
    case InSession(id, e) => SessionInv(c, y, id); InSessionLoad(c, y, id, e);
  }

  // ---- runs ----

  function Externals(actions: seq<Action>): nat {
    if actions == [] then 0 else (if External(actions[0]) then 1 else 0) + Externals(actions[1..])
  }

  /** How many steps one event from outside can cause, with itself. */
  function ExternalCost(c: ServerConfig): nat {
    ArrivalCost(c) + 1
  }

  function Allowance(c: ServerConfig, actions: seq<Action>): nat {
    if actions == [] then 0 else (if External(actions[0]) then ExternalCost(c) else 0) + Allowance(c, actions[1..])
  }

  lemma {:induction false} AllowanceIs(c: ServerConfig, actions: seq<Action>)
    ensures Allowance(c, actions) == ExternalCost(c) * Externals(actions)
  {
    if actions != [] {
      hide ExternalCost, External;
      AllowanceIs(c, actions[1..]);
      Distribute(ExternalCost(c), Externals(actions[1..]));
    }
  }

  lemma {:induction false} Distribute(k: nat, n: nat)
    ensures k * (1 + n) == k + k * n
  {
  }

  lemma {:induction false} RunAllowed(c: ServerConfig, y: System, actions: seq<Action>)
    requires SystemInv(c, y) && Feasible(c, y, actions)
    ensures |actions| + Load(c, Reached(c, y, actions)) <= Load(c, y) + Allowance(c, actions)
    decreases |actions|
  {
    if actions != [] {
      hide SystemInv, Load, Act, Can, External, ExternalCost;
      ActInv(c, y, actions[0]);
      FirstLoad(c, y, actions[0]);
      RunAllowed(c, Act(c, y, actions[0]), actions[1..]);
    }
  }

  /** A run is no longer than its load at the start, and a constant number of steps for
      each event from outside. */
  lemma {:induction false} RunBounded(c: ServerConfig, y: System, actions: seq<Action>)
    requires SystemInv(c, y) && Feasible(c, y, actions)
    ensures |actions| + Load(c, Reached(c, y, actions)) <= Load(c, y) + ExternalCost(c) * Externals(actions)
  {
    hide SystemInv, Load, Feasible, Reached, Externals, Allowance, ExternalCost;
    RunAllowed(c, y, actions);
    AllowanceIs(c, actions);
  }

  lemma {:induction false} FirstLoad(c: ServerConfig, y: System, a: Action)
    requires SystemInv(c, y) && Can(y, a)
    ensures 1 + Load(c, Act(c, y, a)) <= Load(c, y) + if External(a) then ExternalCost(c) else 0
  {
    hide SystemInv, Load, Act, Can, External, ArrivalCost;
    ActLoad(c, y, a);
  }

  /** The program never works by itself: in every run, from the very start, each event from
      outside accounts for a bounded number of steps. */
  lemma {:induction false} NeverBusy(c: ServerConfig, actions: seq<Action>)
    requires Feasible(c, NewSystem(), actions)
    ensures |actions| <= ExternalCost(c) * Externals(actions)
  {
    NewSystemInv(c);
    assert Load(c, NewSystem()) == 0;
    hide SystemInv, Load, ExternalCost, Feasible;
    RunBounded(c, NewSystem(), actions);
  }

  /** After Stop, all that can still come from outside is bytes for sessions whose End has not
      run yet, and further requests to stop; once no member is alive, only those. */
  lemma {:induction false} OutsideAfterStop(c: ServerConfig, y: System, a: Action)
    requires SystemInv(c, y) && y.stopping && Can(y, a) && External(a)
    ensures a.RequestStop? || (a.InSession? && a.id in y.inserted && !y.sessions[a.id].shutdownInitiated)
  {
    assert y.started && (forall t :: t in y.tasks ==> !IsUnderway(t)) by {
      hide Distinct, SessionsOk;
    }
    if a.InSession? {
      assert Inv(c, y.sessions[a.id]) && (a.id !in y.inserted ==> y.sessions[a.id].stage == Created) by {
        hide Inv, Held, Ended, Untouched, Distinct;
        assert SessionOk(c, y, a.id);
      }
      hide SystemInv, Inv;
      NoBytes(c, y.sessions[a.id], a.event);
    }
  }

  lemma {:induction false} NoBytes(c: ServerConfig, s: SessionState, e: Event)
    requires Inv(c, s) && Enabled(s, e) && e.Arrive?
    ensures !s.shutdownInitiated && s.stage != Created
  {
    hide Inv;
    if s.shutdownInitiated {
      ClosedForTraffic(c, s, e);
    } else if s.stage == Created {
      CreatedKinds(c, s, e.i);
    }
  }

  /** Stop was called and no member is alive; what else there is was never a member. */
  ghost predicate Draining(c: ServerConfig, y: System) {
    SystemInv(c, y) && y.stopping && forall id :: id in y.inserted ==> y.sessions[id].shutdownInitiated
  }

  /** While it drains, every step lowers the load; only a further request to stop, which
      comes from outside, adds to it. */
  lemma {:induction false} SystemDrainStep(c: ServerConfig, y: System, a: Action)
    requires Draining(c, y) && Can(y, a) && !a.RequestStop?
    ensures Draining(c, Act(c, y, a))
    ensures Load(c, Act(c, y, a)) < Load(c, y)
  {
    StaysDraining(c, y, a);
    hide SystemInv, Load, Act, Can;
    ActLoad(c, y, a);
    if External(a) {
      OutsideAfterStop(c, y, a);
    }
  }

  lemma {:induction false} StaysDraining(c: ServerConfig, y: System, a: Action)
    requires Draining(c, y) && Can(y, a)
    ensures Draining(c, Act(c, y, a))
  {
    assert forall id :: id in y.inserted ==> id < |y.sessions| by {
      hide SessionsOk, Distinct;
    }
    hide SystemInv, Act;
    ActInv(c, y, a);
    StoppedForGood(c, y, a);
    forall id | id in y.inserted
      ensures DownIn(Act(c, y, a), id)
    {
      ShutdownStays(c, y, a, id);
    }
  }

  /** A session that was shut down is so still. */
  ghost predicate DownIn(y: System, id: nat) {
    id < |y.sessions| && y.sessions[id].shutdownInitiated
  }

  lemma {:induction false} ShutdownStays(c: ServerConfig, y: System, a: Action, id: nat)
    requires SystemInv(c, y) && Can(y, a) && y.stopping && DownIn(y, id)
    ensures DownIn(Act(c, y, a), id)
  {
    hide SystemInv, EndSession, OnTask, Update, Remove, Enabled, Step, DownIn;
    match a
    case RunTask(i, inline) =>
      SameSessionsDown(y, y.(tasks := Remove(y.tasks, i)), id);
      TaskStays(c, y.(tasks := Remove(y.tasks, i)), y.tasks[i], inline, id);
    case EndNext(k, inline) =>
      EndStays(y, k, inline, id);
      SameSessionsDown(EndSession(y, k, inline), Act(c, y, a), id);
    case InSession(k, e) => OwnStays(c, y, k, e, id);
    case _ => SameSessionsDown(y, Act(c, y, a), id);
  }

  lemma {:induction false} SameSessionsDown(y: System, z: System, id: nat)
    requires DownIn(y, id) && z.sessions == y.sessions
    ensures DownIn(z, id)
  {
  }

  lemma {:induction false} TaskStays(c: ServerConfig, y: System, t: Task, inline: bool, id: nat)
    requires DownIn(y, id) && y.stopping && (t.Accept? ==> t.id < |y.sessions|)
    requires t.Accept? && t.outcome == Accepted ==> Enabled(y.sessions[t.id], Spawn(inline))
    ensures DownIn(OnTask(c, y, t, inline), id)
  {
    hide EndSession, Enabled, Update, Step;
    if t.Accept? {
      EndStays(y, t.id, inline, id);
      EndStopping(y, t.id, inline);
    }
  }

  lemma {:induction false} EndStays(y: System, k: nat, inline: bool, id: nat)
    requires DownIn(y, id) && k < |y.sessions|
    ensures DownIn(EndSession(y, k, inline), id)
  {
    hide DispatchEnd;
    UpdateKeeps(y, k, DispatchEnd(y.sessions[k], inline));
    DispatchStays(y.sessions[k], inline);
  }

  lemma {:induction false} OwnStays(c: ServerConfig, y: System, k: nat, e: Event, id: nat)
    requires SystemInv(c, y) && DownIn(y, id) && k < |y.sessions| && Enabled(y.sessions[k], e)
    ensures DownIn(Update(y, k, Step(c, y.sessions[k], e)), id)
  {
    hide SystemInv, Inv, Step, Enabled, Update;
    SessionInv(c, y, k);
    UpdateKeeps(y, k, Step(c, y.sessions[k], e));
    if k == id {
      StillShutDown(c, y.sessions[k], e);
    }
  }

  lemma {:induction false} DispatchStays(s: SessionState, inline: bool)
    ensures s.shutdownInitiated ==> DispatchEnd(s, inline).shutdownInitiated
  {
  }

  /** A run in this phase is no longer than the load it starts with. */
  lemma {:induction false} SystemDrainBounded(c: ServerConfig, y: System, actions: seq<Action>)
    requires Draining(c, y) && Feasible(c, y, actions)
    requires forall a :: a in actions ==> !a.RequestStop?
    ensures |actions| + Load(c, Reached(c, y, actions)) <= Load(c, y)
    decreases |actions|
  {
    if actions != [] {
      hide Draining, Load, Act, Can;
      SystemDrainStep(c, y, actions[0]);
      SystemDrainBounded(c, Act(c, y, actions[0]), actions[1..]);
    }
  }

  lemma {:induction false} EndingKnown(c: ServerConfig, y: System, id: nat)
    requires SystemInv(c, y) && id in y.ending
    ensures id < |y.sessions|
  {
    hide SessionsOk, Distinct;
  }

  lemma {:induction false} NothingUnderway(c: ServerConfig, y: System, i: nat)
    requires SystemInv(c, y) && y.stopping && i < |y.tasks|
    ensures y.started && !IsUnderway(y.tasks[i])
  {
    hide SessionsOk, Distinct;
    assert y.tasks[i] in y.tasks;
  }

  /** A step the program takes by itself. */
  ghost predicate ByItself(y: System, a: Action) {
    Can(y, a) && !External(a)
  }

  lemma {:induction false} LoopContinues(c: ServerConfig, y: System, id: nat)
    requires SystemInv(c, y) && id in y.ending
    ensures ByItself(y, EndNext(id, true))
  {
    hide SystemInv;
    EndingKnown(c, y, id);
  }

  lemma {:induction false} TaskContinues(c: ServerConfig, y: System)
    requires SystemInv(c, y) && y.stopping && y.ending == {} && y.tasks != []
    ensures ByItself(y, RunTask(0, true))
  {
    hide SystemInv, Can;
    NothingUnderway(c, y, 0);
    HandlersNeverBlocked(c, y, 0, true);
  }

  lemma {:induction false} SessionContinues(c: ServerConfig, y: System, id: nat) returns (e: Event)
    requires SystemInv(c, y) && id < |y.sessions| && y.sessions[id].pending != []
    ensures ByItself(y, InSession(id, e))
  {
    hide SystemInv, Inv, Enabled;
    SessionInv(c, y, id);
    DrainContinues(c, y.sessions[id]);
    e :| Own(e) && !e.Arrive? && Enabled(y.sessions[id], e);
  }

  /** After Stop the program can go on by itself until nothing is pending anywhere. */
  lemma {:induction false} SystemDrainContinues(c: ServerConfig, y: System)
    requires SystemInv(c, y) && y.stopping && !Quiescent(y)
    ensures exists a :: ByItself(y, a)
  {
    hide SystemInv, ByItself;
    if y.ending != {} {
      var id :| id in y.ending;
      LoopContinues(c, y, id);
    } else if y.tasks != [] {
      TaskContinues(c, y);
    } else {
      var id :| 0 <= id < |y.sessions| && y.sessions[id].pending != [];
      var e := SessionContinues(c, y, id);
    }
  }
}
