/** What becomes of the server: exactly whom it admits, what follows an accept, exactly when it
    stops, and that it can always be told to. */
module SystemOutcomes {
  import opened Basics
  import opened Config
  import opened Outstanding
  import opened SessionMachine
  import opened SessionInvariants
  import opened SessionLifecycle
  import opened SessionOutcomes
  import opened SystemMachine
  import opened SystemInvariants
  import opened SystemTheorems

  // ---- admission ----

  /** The session is a member and lives. */
  ghost predicate Served(y: System, id: nat) {
    && id in y.registry && id < |y.sessions|
    && y.sessions[id].stage != Created && !y.sessions[id].shutdownInitiated
  }

  /** The session was told to end and is no member. */
  ghost predicate TurnedAway(y: System, id: nat) {
    id !in y.registry && id < |y.sessions| && Ended(y.sessions[id])
  }

  /** The next session was made, and its accept is under way. */
  ghost predicate AcceptsNext(y: System, z: System) {
    && |z.sessions| == |y.sessions| + 1 && z.sessions[|y.sessions|] == NewSession()
    && Accept(|y.sessions|, Underway) in z.tasks
  }

  lemma {:induction false} AcceptOpens(y: System)
    requires !y.stopping
    ensures AcceptsNext(y, AcceptConnections(y))
    ensures AcceptConnections(y).registry == y.registry
    ensures AcceptConnections(y).sessions[..|y.sessions|] == y.sessions
  {
    hide NewSession;
    var t := Accept(|y.sessions|, Underway);
    assert (y.tasks + [t])[|y.tasks|] == t;
  }

  lemma {:induction false} AcceptNothing(y: System)
    requires y.stopping
    ensures AcceptConnections(y) == y
  {
  }

  /** Ending a session leaves the server's fields alone. */
  lemma {:induction false} EndOutcome(y: System, id: nat, inline: bool)
    requires id < |y.sessions|
    ensures var z := EndSession(y, id, inline);
      && |z.sessions| == |y.sessions| && Ended(z.sessions[id])
      && (z.sessions[id].shutdownInitiated <==> y.sessions[id].shutdownInitiated || inline)
      && z.registry == y.registry && z.stopping == y.stopping && z.ending == y.ending
      && forall t :: t in y.tasks ==> t in z.tasks
  {
    hide DispatchEnd, Ended, Update;
    CallEndFollows(y.sessions[id], inline);
    DispatchTells(y.sessions[id], inline);
    UpdateKeeps(y, id, DispatchEnd(y.sessions[id], inline));
    UpdateGrows(y, id, DispatchEnd(y.sessions[id], inline));
  }

  lemma {:induction false} UpdateGrows(y: System, id: nat, s: SessionState)
    requires id < |y.sessions|
    ensures forall t :: t in y.tasks ==> t in Update(y, id, s).tasks
  {
  }

  lemma {:induction false} AcceptedOutcome(c: ServerConfig, y: System, id: nat, inline: bool)
    requires id < |y.sessions| && y.sessions[id] == NewSession() && Enabled(y.sessions[id], Spawn(inline))
    requires id !in y.registry
    ensures var z := OnAccept(c, y, id, Accepted, inline);
      && (if !y.stopping && |y.registry| < c.maxConnections then Served(z, id) && z.registry == y.registry + {id}
          else TurnedAway(z, id) && z.registry == y.registry)
      && (!y.stopping ==> AcceptsNext(y, z))
  {
    hide AcceptConnections, EndSession, Update, Step, Enabled, NewSession, Ended;
    if !y.stopping && |y.registry| < c.maxConnections {
      var s := Step(c, y.sessions[id], Spawn(inline));
      var u := Register(y, id);
      SpawnLives(c, inline);
      UpdateKeeps(u, id, s);
      AcceptOpens(Update(u, id, s));
      KeptByAccept(Update(u, id, s), id);
    } else {
      var u := EndSession(y, id, inline);
      EndOutcome(y, id, inline);
      if y.stopping {
        AcceptNothing(u);
      } else {
        AcceptOpens(u);
        KeptByAccept(u, id);
      }
    }
  }

  lemma {:induction false} KeptByAccept(y: System, id: nat)
    requires id < |y.sessions|
    ensures id < |AcceptConnections(y).sessions| && AcceptConnections(y).sessions[id] == y.sessions[id]
  {
    hide NewSession;
  }

  lemma {:induction false} SpawnLives(c: ServerConfig, inline: bool)
    ensures Enabled(NewSession(), Spawn(inline))
    ensures var s := Step(c, NewSession(), Spawn(inline)); s.stage != Created && !s.shutdownInitiated
  {
    hide CancelWaits;
  }

  /** An accepted client is served exactly if the server is not stopping and has fewer members
      than it may have; nobody else is. Unless it is stopping, it accepts the next one. */
  lemma {:induction false} AdmittedExactly(c: ServerConfig, y: System, i: nat, id: nat, inline: bool)
    requires SystemInv(c, y) && i < |y.tasks| && y.tasks[i] == Accept(id, Accepted)
    requires Can(y, RunTask(i, inline))
    ensures var z := Act(c, y, RunTask(i, inline));
      && (if !y.stopping && |y.registry| < c.maxConnections then Served(z, id) && z.registry == y.registry + {id}
          else TurnedAway(z, id) && z.registry == y.registry)
      && (!y.stopping ==> AcceptsNext(y, z))
  {
    hide SystemInv, OnAccept, Enabled, Remove, Served, TurnedAway, NewSession;
    var u := y.(tasks := Remove(y.tasks, i));
    TakeAccept(c, y, i);
    LooseMeans(c, u, id);
    AcceptedOutcome(c, u, id, inline);
    SameNext(u, y, OnAccept(c, u, id, Accepted, inline));
  }

  lemma {:induction false} SameNext(u: System, y: System, z: System)
    requires u.sessions == y.sessions
    ensures AcceptsNext(u, z) <==> AcceptsNext(y, z)
  {
  }

  lemma {:induction false} LooseMeans(c: ServerConfig, y: System, id: nat)
    requires Loose(c, y, id)
    ensures id < |y.sessions| && y.sessions[id] == NewSession() && id !in y.registry && NoneAccepting(y)
  {
    hide SessionOk, TasksOk, Held;
  }

  /** After an accept that failed its session is ended, and, unless the server is stopping,
      the retry timer is what goes on; no session is made before it expires. */
  lemma {:induction false} FailedAccept(c: ServerConfig, y: System, i: nat, id: nat, outcome: Outcome, inline: bool)
    requires SystemInv(c, y) && i < |y.tasks| && y.tasks[i] == Accept(id, outcome)
    requires outcome == Refused || outcome == Aborted
    requires Can(y, RunTask(i, inline))
    ensures var z := Act(c, y, RunTask(i, inline));
      && TurnedAway(z, id) && z.registry == y.registry && |z.sessions| == |y.sessions|
      && (Retry(Underway) in z.tasks <==> outcome == Refused && !y.stopping)
  {
    hide SystemInv, Remove, EndSession, Enabled, NewSession, Ended;
    var u := y.(tasks := Remove(y.tasks, i));
    TakeAccept(c, y, i);
    LooseMeans(c, u, id);
    EndOutcome(u, id, inline);
    NoRetry(u, id, inline);
    var z := EndSession(u, id, inline);
    assert (z.tasks + [Retry(Underway)])[|z.tasks|] == Retry(Underway);
  }

  lemma {:induction false} NoRetry(y: System, id: nat, inline: bool)
    requires id < |y.sessions| && NoneAccepting(y)
    ensures Retry(Underway) !in EndSession(y, id, inline).tasks
  {
    hide DispatchEnd;
  }

  /** When the retry timer has expired the server accepts again, unless it is stopping. */
  lemma {:induction false} RetryOutcome(c: ServerConfig, y: System, i: nat, inline: bool)
    requires i < |y.tasks| && y.tasks[i] == Retry(Accepted) && Can(y, RunTask(i, inline))
    ensures var z := Act(c, y, RunTask(i, inline));
      if y.stopping then z.sessions == y.sessions else AcceptsNext(y, z)
  {
    hide AcceptConnections, Remove, NewSession;
    var u := y.(tasks := Remove(y.tasks, i));
    if y.stopping {
      AcceptNothing(u);
    } else {
      AcceptOpens(u);
    }
  }

  /** An accept may succeed or fail; a timer expires and a signal is delivered in one way. */
  lemma {:induction false} TasksComplete(c: ServerConfig, y: System, i: nat)
    requires i < |y.tasks| && IsUnderway(y.tasks[i])
    ensures Can(y, CompleteTask(i, true))
    ensures Can(y, CompleteTask(i, false)) <==> y.tasks[i].Accept?
    ensures var t := Act(c, y, CompleteTask(i, true)).tasks[i];
      SameWait(t, y.tasks[i]) && t.outcome == Accepted
    ensures y.tasks[i].Accept? ==> Act(c, y, CompleteTask(i, false)).tasks[i] == Accept(y.tasks[i].id, Refused)
  {
  }

  // ---- a full house ----

  /** So many members, all alive, with the next client awaited. */
  ghost predicate House(y: System, n: nat) {
    && y.started && !y.stopping && y.ending == {}
    && y.tasks == [Signal(Underway), Accept(n, Underway)]
    && |y.sessions| == n + 1 && y.sessions[n] == NewSession()
    && |y.registry| == n && (forall id :: id in y.registry <==> 0 <= id < n)
    && forall id :: 0 <= id < n ==> Served(y, id)
  }

  lemma {:induction false} EmptyHouse(c: ServerConfig)
    ensures House(Act(c, NewSystem(), StartServer), 0)
  {
  }

  /** One more client comes. */
  lemma {:induction false} Welcome(c: ServerConfig, y: System, n: nat)
    requires House(y, n) && n < c.maxConnections
    ensures Can(y, CompleteTask(1, true))
    ensures Can(Act(c, y, CompleteTask(1, true)), RunTask(1, true))
    ensures House(Act(c, Act(c, y, CompleteTask(1, true)), RunTask(1, true)), n + 1)
  {
    var u := Act(c, y, CompleteTask(1, true));
    assert u.tasks == [Signal(Underway), Accept(n, Accepted)];
    hide Step, Enabled, NewSession;
    SpawnLives(c, true);
    SpawnPosts(c, true);
    assert Remove(u.tasks, 1) == [Signal(Underway)];
    var v := u.(tasks := [Signal(Underway)]);
    Welcomed(c, v, n);
  }

  lemma {:induction false} SpawnPosts(c: ServerConfig, inline: bool)
    ensures Step(c, NewSession(), Spawn(inline)).erasesPosted == NewSession().erasesPosted
  {
    hide CancelWaits;
  }

  lemma {:induction false} Welcomed(c: ServerConfig, y: System, n: nat)
    requires House(y.(tasks := [Signal(Underway), Accept(n, Underway)]), n) && y.tasks == [Signal(Underway)]
    requires n < c.maxConnections && Enabled(y.sessions[n], Spawn(true))
    ensures House(OnAccept(c, y, n, Accepted, true), n + 1)
  {
    hide Step, Enabled, NewSession;
    SpawnLives(c, true);
    SpawnPosts(c, true);
    var s := Step(c, y.sessions[n], Spawn(true));
    var u := Update(Register(y, n), n, s);
    assert u.tasks == y.tasks && u.sessions == y.sessions[n := s];
    var z := AcceptConnections(u);
    assert z.tasks == [Signal(Underway), Accept(n + 1, Underway)];
    forall id | 0 <= id < n + 1
      ensures Served(z, id)
    {
      assert id < n ==> Served(y.(tasks := [Signal(Underway), Accept(n, Underway)]), id);
    }
  }

  /** Up to max_connections clients are served at the same time. */
  lemma {:induction false} HouseFills(c: ServerConfig, n: nat)
    requires n <= c.maxConnections
    ensures exists actions :: Feasible(c, NewSystem(), actions) && House(Reached(c, NewSystem(), actions), n)
  {
    if n == 0 {
      assert Feasible(c, NewSystem(), []) && Reached(c, NewSystem(), []) == NewSystem();
      EmptyHouse(c);
      hide Act, House;
      ReachedOneMore(c, NewSystem(), [], StartServer);
    } else {
      hide Act, Can, House;
      HouseFills(c, n - 1);
      var actions :| Feasible(c, NewSystem(), actions) && House(Reached(c, NewSystem(), actions), n - 1);
      Welcome(c, Reached(c, NewSystem(), actions), n - 1);
      ReachedOneMore(c, NewSystem(), actions, CompleteTask(1, true));
      ReachedOneMore(c, NewSystem(), actions + [CompleteTask(1, true)], RunTask(1, true));
    }
  }

  // ---- stopping ----

  /** The step runs a queued call of Stop, or the handler of a signal that was delivered. */
  predicate StopsServer(y: System, a: Action) {
    a.RunTask? && a.i < |y.tasks| && (y.tasks[a.i] == StopCall || y.tasks[a.i] == Signal(Accepted))
  }

  /** What Stop leaves: all members to be ended, no wait or accept under way, and what was
      completed still in the queue. */
  ghost predicate StopBegun(before: seq<Task>, y: System, z: System) {
    && z.stopping && z.ending == z.registry == y.registry && z.sessions == y.sessions
    && |z.tasks| == |before|
    && forall j :: 0 <= j < |before| ==>
         if IsUnderway(before[j])
         then !IsUnderway(z.tasks[j]) && IsAborted(z.tasks[j]) && SameWait(z.tasks[j], before[j])
         else z.tasks[j] == before[j]
  }

  predicate IsAborted(t: Task) {
    (t.Accept? || t.Retry? || t.Signal?) && t.outcome == Aborted
  }

  predicate SameWait(t: Task, u: Task) {
    (t.Accept? && u.Accept? && t.id == u.id) || (t.Retry? && u.Retry?) || (t.Signal? && u.Signal?)
  }

  lemma {:induction false} StopOutcome(y: System)
    requires !y.stopping
    ensures StopBegun(y.tasks, y, BeginStop(y))
  {
  }

  /** The server begins to stop by these steps and by no other. */
  lemma {:induction false} StopsExactly(c: ServerConfig, y: System, a: Action)
    requires Can(y, a) && !y.stopping
    ensures var z := Act(c, y, a);
      && (z.stopping <==> StopsServer(y, a))
      && (z.stopping ==> a.RunTask? && StopBegun(Remove(y.tasks, a.i), y, z))
  {
    hide Step, DispatchEnd, Enabled, Remove, StopBegun, BeginStop, NewSession;
    match a
    case RunTask(i, inline) =>
      var u := y.(tasks := Remove(y.tasks, i));
      StopOutcome(u);
      SameBegun(u.tasks, u, y, BeginStop(u));
      StopBegunStops(u.tasks, u, BeginStop(u));
      if !StopsServer(y, a) {
        NeverStops(c, u, y.tasks[i], inline);
      }
    case EndNext(id, inline) => UpdateKeeps(y, id, DispatchEnd(y.sessions[id], inline));
    case InSession(id, e) => UpdateKeeps(y, id, Step(c, y.sessions[id], e));
    case _ =>
  }

  lemma {:induction false} SameBegun(before: seq<Task>, u: System, y: System, z: System)
    requires u.registry == y.registry && u.sessions == y.sessions
    ensures StopBegun(before, u, z) <==> StopBegun(before, y, z)
  {
  }

  lemma {:induction false} StopBegunStops(before: seq<Task>, y: System, z: System)
    requires StopBegun(before, y, z)
    ensures z.stopping
  {
  }

  lemma {:induction false} NeverStops(c: ServerConfig, y: System, t: Task, inline: bool)
    requires !y.stopping && t != StopCall && t != Signal(Accepted)
    requires t.Accept? ==> t.id < |y.sessions|
    requires t.Accept? && t.outcome == Accepted ==> Enabled(y.sessions[t.id], Spawn(inline))
    ensures !OnTask(c, y, t, inline).stopping
  {
    hide Step, DispatchEnd, Enabled, NewSession;
    if t.Accept? {
      UpdateKeeps(y, t.id, DispatchEnd(y.sessions[t.id], inline));
    }
  }

  // ---- signals ----

  /** A wait for a signal is under way, or its signal is there. */
  ghost predicate ListensFor(y: System) {
    y.started && !y.stopping ==> Signal(Underway) in y.tasks || Signal(Accepted) in y.tasks
  }

  lemma {:induction false} AcceptGrows(y: System)
    ensures forall t :: t in y.tasks ==> t in AcceptConnections(y).tasks
  {
  }

  lemma {:induction false} OnAcceptGrows(c: ServerConfig, y: System, id: nat, outcome: Outcome, inline: bool)
    requires id < |y.sessions| && (outcome == Accepted ==> Enabled(y.sessions[id], Spawn(inline)))
    ensures forall t :: t in y.tasks ==> t in OnAccept(c, y, id, outcome, inline).tasks
  {
    hide Step, Enabled, DispatchEnd, Update, AcceptConnections;
    UpdateGrows(y, id, DispatchEnd(y.sessions[id], inline));
    AcceptGrows(EndSession(y, id, inline));
    if outcome == Accepted {
      UpdateGrows(Register(y, id), id, Step(c, y.sessions[id], Spawn(inline)));
      AcceptGrows(Update(Register(y, id), id, Step(c, y.sessions[id], Spawn(inline))));
    }
  }

  lemma {:induction false} ActListens(c: ServerConfig, y: System, a: Action)
    requires Can(y, a) && ListensFor(y) && (y.started || y.tasks == [])
    ensures ListensFor(Act(c, y, a))
  {
    if y.stopping {
      StoppedForGood(c, y, a);
    } else if a.StartServer? {
      StartListens(y);
    } else {
      hide Step, Enabled, DispatchEnd, Update, AcceptConnections, OnAccept, Remove;
      match a
      case RunTask(i, inline) =>
        var u := y.(tasks := Remove(y.tasks, i));
        RemovedTasks(y.tasks, i);
        AcceptGrows(u);
        if y.tasks[i].Accept? {
          OnAcceptGrows(c, u, y.tasks[i].id, y.tasks[i].outcome, inline);
        }
      case CompleteTask(i, accepted) => CompleteListens(y, i, accepted);
      case EndNext(id, inline) => UpdateGrows(y, id, DispatchEnd(y.sessions[id], inline));
      case InSession(id, e) => UpdateGrows(y, id, Step(c, y.sessions[id], e));
      case _ =>
    }
  }

  lemma {:induction false} StartListens(y: System)
    requires !y.stopping
    ensures ListensFor(AcceptConnections(Post(y.(started := true), Signal(Underway))))
  {
    var z := Post(y.(started := true), Signal(Underway));
    assert z.tasks[|y.tasks|] == Signal(Underway);
    AcceptGrows(z);
  }

  lemma {:induction false} CompleteListens(y: System, i: nat, accepted: bool)
    requires i < |y.tasks| && IsUnderway(y.tasks[i]) && (accepted || y.tasks[i].Accept?) && ListensFor(y)
    ensures ListensFor(y.(tasks := y.tasks[i := Completed(y.tasks[i], accepted)]))
  {
    var u := Completed(y.tasks[i], accepted);
    assert y.tasks[i := u][i] == u;
    forall t | t in y.tasks && t != y.tasks[i]
      ensures t in y.tasks[i := u]
    {
      var k :| 0 <= k < |y.tasks| && y.tasks[k] == t;
      assert y.tasks[i := u][k] == t;
    }
  }

  lemma {:induction false} ReachedListens(c: ServerConfig, y: System, actions: seq<Action>)
    requires SystemInv(c, y) && ListensFor(y) && Feasible(c, y, actions)
    ensures ListensFor(Reached(c, y, actions))
    decreases |actions|
  {
    if actions != [] {
      NotStarted(c, y);
      hide SystemInv, ListensFor, Act, Can;
      ActInv(c, y, actions[0]);
      ActListens(c, y, actions[0]);
      ReachedListens(c, Act(c, y, actions[0]), actions[1..]);
    }
  }

  lemma {:induction false} NotStarted(c: ServerConfig, y: System)
    requires SystemInv(c, y)
    ensures y.started || y.tasks == []
    ensures !y.stopping ==> y.ending == {}
  {
    hide SessionsOk, Distinct;
  }

  /** Until it stops, a started server can be stopped by a signal at any time: the wait is
      there, and once the signal is delivered its handler can run and begins to stop. */
  lemma {:induction false} SignalStops(c: ServerConfig, actions: seq<Action>)
    requires Feasible(c, NewSystem(), actions)
    ensures var y := Reached(c, NewSystem(), actions);
      y.started && !y.stopping ==>
        exists i :: 0 <= i < |y.tasks| && HearsSignal(c, y, i)
  {
    NewSystemInv(c);
    assert ListensFor(NewSystem());
    ReachedInv(c, NewSystem(), actions);
    ReachedListens(c, NewSystem(), actions);
    var y := Reached(c, NewSystem(), actions);
    NotStarted(c, y);
    if y.started && !y.stopping {
      var t := if Signal(Underway) in y.tasks then Signal(Underway) else Signal(Accepted);
      var i :| 0 <= i < |y.tasks| && y.tasks[i] == t;
      hide SystemInv, Reached, Feasible;
      Hears(c, y, i);
    }
  }

  /** The task at `i` is a signal that stops the server: at once, or when it is delivered. */
  ghost predicate HearsSignal(c: ServerConfig, y: System, i: nat) {
    if Can(y, CompleteTask(i, true)) then HandlesSignal(c, Act(c, y, CompleteTask(i, true)), i)
    else HandlesSignal(c, y, i)
  }

  ghost predicate HandlesSignal(c: ServerConfig, y: System, i: nat) {
    && Can(y, RunTask(i, true)) && i < |y.tasks| && y.tasks[i] == Signal(Accepted)
    && Act(c, y, RunTask(i, true)).stopping
  }

  lemma {:induction false} Hears(c: ServerConfig, y: System, i: nat)
    requires i < |y.tasks| && (y.tasks[i] == Signal(Underway) || y.tasks[i] == Signal(Accepted))
    requires !y.stopping && y.ending == {}
    ensures HearsSignal(c, y, i)
  {
    hide CancelTasks, Remove;
  }

  // ---- the exit code ----

  /** Run reports a failure exactly if an exception left a handler of the event loop. */
  lemma {:induction false} FailedExactly(c: ServerConfig, y: System, actions: seq<Action>)
    requires Feasible(c, y, actions)
    ensures Reached(c, y, actions).failed <==> y.failed || RequestStop(true) in actions
    decreases |actions|
  {
    if actions != [] {
      hide Act, Can;
      ActFails(c, y, actions[0]);
      FailedExactly(c, Act(c, y, actions[0]), actions[1..]);
      assert actions == [actions[0]] + actions[1..];
    }
  }

  lemma {:induction false} ActFails(c: ServerConfig, y: System, a: Action)
    requires Can(y, a)
    ensures Act(c, y, a).failed <==> y.failed || a == RequestStop(true)
  {
    hide Step, DispatchEnd, Enabled, Remove, Update, OnTask, AcceptConnections;
    match a
    case StartServer => AcceptFails(Post(y.(started := true), Signal(Underway)));
    case RunTask(i, inline) => TaskFails(c, y.(tasks := Remove(y.tasks, i)), y.tasks[i], inline);
    case EndNext(id, inline) => UpdateFails(y, id, DispatchEnd(y.sessions[id], inline));
    case InSession(id, e) => UpdateFails(y, id, Step(c, y.sessions[id], e));
    case _ =>
  }

  lemma {:induction false} AcceptFails(y: System)
    ensures AcceptConnections(y).failed == y.failed
  {
  }

  lemma {:induction false} UpdateFails(y: System, id: nat, s: SessionState)
    requires id < |y.sessions|
    ensures Update(y, id, s).failed == y.failed
  {
  }

  lemma {:induction false} TaskFails(c: ServerConfig, y: System, t: Task, inline: bool)
    requires t.Accept? ==> t.id < |y.sessions|
    requires t.Accept? && t.outcome == Accepted ==> Enabled(y.sessions[t.id], Spawn(inline))
    ensures OnTask(c, y, t, inline).failed == y.failed
  {
    hide Step, DispatchEnd, Enabled, Update, AcceptConnections;
    AcceptFails(y);
    if t.Accept? {
      var u := EndSession(y, t.id, inline);
      UpdateFails(y, t.id, DispatchEnd(y.sessions[t.id], inline));
      AcceptFails(u);
      if t.outcome == Accepted {
        var s := Step(c, y.sessions[t.id], Spawn(inline));
        UpdateFails(Register(y, t.id), t.id, s);
        AcceptFails(Update(Register(y, t.id), t.id, s));
      }
    }
  }
}
