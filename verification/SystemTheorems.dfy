/** What the server promises over all runs of the program. */
module SystemTheorems {
  import opened Basics
  import opened Config
  import opened Outstanding
  import opened SessionMachine
  import opened SessionInvariants
  import opened SessionTheorems
  import opened SessionLifecycle
  import opened SystemMachine
  import opened SystemInvariants

  // ---- admission ----

  /** Never more members than configured; and until Stop exactly one accept or retry is
      outstanding, so accepting neither dies nor doubles. */
  lemma {:induction false} Admission(c: ServerConfig, actions: seq<Action>)
    requires Feasible(c, NewSystem(), actions)
    ensures var y := Reached(c, NewSystem(), actions);
      && |y.registry| <= c.maxConnections
      && (y.started && !y.stopping ==>
            exists i :: 0 <= i < |y.tasks| && Accepting(y.tasks[i])
              && forall j :: 0 <= j < |y.tasks| && Accepting(y.tasks[j]) ==> j == i)
  {
    hide SessionsOk, Named;
    NewSystemInv(c);
    ReachedInv(c, NewSystem(), actions);
    var y := Reached(c, NewSystem(), actions);
    if y.started && !y.stopping {
      var t :| t in y.tasks && Accepting(t);
      var i :| 0 <= i < |y.tasks| && y.tasks[i] == t;
      forall j | 0 <= j < |y.tasks| && Accepting(y.tasks[j])
        ensures j == i
      {
        assert Conflict(y.tasks[i], y.tasks[j]) && Conflict(y.tasks[j], y.tasks[i]);
      }
    }
  }

  /** Whatever has completed on the strand of the server can be handled, unless the loop
      of Stop is running: no handler meets a session it cannot deal with. */
  lemma {:induction false} HandlersNeverBlocked(c: ServerConfig, y: System, i: nat, inline: bool)
    requires i < |y.tasks| && !IsUnderway(y.tasks[i]) && y.ending == {}
    requires SystemInv(c, y)
    ensures Can(y, RunTask(i, inline))
  {
    var t := y.tasks[i];
    if t.Accept? {
      hide SystemInv, Remove;
      TakeAccept(c, y, i);
      LooseFacts(c, y.(tasks := Remove(y.tasks, i)), t.id);
      assert Enabled(y.sessions[t.id], Spawn(inline));
    }
  }

  // ---- the registry ----

  /** A member is shut down exactly while its erase is queued, at most one erase is queued
      for a session and at most one is ever posted, and none of the sessions that were
      members was erased before it was shut down. */
  lemma {:induction false} RegistryConsistent(c: ServerConfig, y: System, id: nat)
    requires id in y.inserted && SystemInv(c, y)
    ensures id < |y.sessions|
    ensures var s := y.sessions[id];
      && (id in y.registry && s.shutdownInitiated <==> Erase(id) in y.tasks)
      && (id !in y.registry ==> s.shutdownInitiated)
      && s.erasesPosted == (if s.shutdownInitiated then 1 else 0)
    ensures forall i, j :: 0 <= i < j < |y.tasks| && y.tasks[i] == Erase(id) ==> y.tasks[j] != Erase(id)
  {
    hide Held, Ended, Untouched;
    assert SessionOk(c, y, id);
    ErasePosted(c, y.sessions[id]);
    hide Inv;
    forall i, j | 0 <= i < j < |y.tasks| && y.tasks[i] == Erase(id)
      ensures y.tasks[j] != Erase(id)
    {
      assert y.tasks[j] == y.tasks[i] ==> Conflict(y.tasks[i], y.tasks[j]);
    }
  }

  // ---- stopping ----

  /** After Stop no session is created or registered, by whatever was queued before. */
  lemma {:induction false} StoppedForGood(c: ServerConfig, y: System, a: Action)
    requires y.stopping && Can(y, a)
    ensures var z := Act(c, y, a);
      && z.stopping && z.inserted == y.inserted && |z.sessions| == |y.sessions|
      && z.registry <= y.registry && z.ending <= y.ending
  {
    hide Step, DispatchEnd, Enabled, Update, Remove;
    match a
    case RunTask(i, inline) =>
      if y.tasks[i].Accept? {
        var id := y.tasks[i].id;
        UpdateKeeps(y.(tasks := Remove(y.tasks, i)), id, DispatchEnd(y.sessions[id], inline));
      }
    case EndNext(id, inline) => UpdateKeeps(y, id, DispatchEnd(y.sessions[id], inline));
    case InSession(id, e) => UpdateKeeps(y, id, Step(c, y.sessions[id], e));
    case _ =>
  }

  /** The loop of Stop is not disturbed: whether End runs at once or is queued, and
      whatever the sessions do meanwhile, the registry stays as it is and the list of
      members still to be ended only loses the one being ended. */
  lemma {:induction false} StopLoopUndisturbed(c: ServerConfig, y: System, a: Action)
    requires y.ending != {} && SystemInv(c, y) && Can(y, a)
    ensures var z := Act(c, y, a);
      && z.registry == y.registry
      && z.ending == (if a.EndNext? then y.ending - {a.id} else y.ending)
      && (a.EndNext? ==> a.id < |z.sessions| && Ended(z.sessions[a.id]))
  {
    hide Step, Enabled, SystemInv, DispatchEnd, Ended;
    match a
    case EndNext(id, inline) => CallEndFollows(y.sessions[id], inline);
    case StartServer => StoppedIsStarted(c, y);
    case _ =>
  }

  lemma {:induction false} StoppedIsStarted(c: ServerConfig, y: System)
    requires y.ending != {} && SystemInv(c, y)
    ensures y.started
  {
    hide SessionsOk, Distinct;
  }

  /** Once Stop has run every member is shut down or has an End pending. */
  lemma {:induction false} MembersEnd(c: ServerConfig, y: System, id: nat)
    requires SystemInv(c, y) && y.stopping && y.ending == {} && id in y.registry
    ensures id < |y.sessions| && Ended(y.sessions[id])
  {
    hide Inv, Ended, Untouched, Held, Distinct;
    assert SessionOk(c, y, id);
  }

  /** Nothing is pending anywhere. */
  ghost predicate Quiescent(y: System) {
    && y.tasks == [] && y.ending == {}
    && forall id :: 0 <= id < |y.sessions| ==> y.sessions[id].pending == []
  }

  /** When nothing is pending any more the server was stopped, the registry is empty, and
      every session that ever existed is shut down and has been erased. */
  lemma {:induction false} ShutdownComplete(c: ServerConfig, actions: seq<Action>)
    requires Feasible(c, NewSystem(), actions)
    requires Quiescent(Reached(c, NewSystem(), actions)) && Reached(c, NewSystem(), actions).started
    ensures var y := Reached(c, NewSystem(), actions);
      && y.stopping && y.registry == {}
      && forall id :: 0 <= id < |y.sessions| ==>
           y.sessions[id].shutdownInitiated && y.sessions[id].erasesPosted == 1
  {
    var y := Reached(c, NewSystem(), actions);
    NewSystemInv(c);
    ReachedInv(c, NewSystem(), actions);
    hide Reached, Feasible;
    QuietSystem(c, y);
  }

  lemma {:induction false} QuietSystem(c: ServerConfig, y: System)
    requires SystemInv(c, y) && Quiescent(y) && y.started
    ensures y.stopping && y.registry == {}
    ensures forall id :: 0 <= id < |y.sessions| ==>
      y.sessions[id].shutdownInitiated && y.sessions[id].erasesPosted == 1
  {
    hide Distinct, Inv, Ended;
    forall id | 0 <= id < |y.sessions|
      ensures y.sessions[id].shutdownInitiated && y.sessions[id].erasesPosted == 1
      ensures id !in y.registry
    {
      assert SessionOk(c, y, id);
      NothingPendingEnded(y.sessions[id]);
      if y.sessions[id].stage != Created {
        LiveSessionPends(c, y.sessions[id]);
      }
      ErasePosted(c, y.sessions[id]);
    }
  }

  lemma {:induction false} NothingPendingEnded(s: SessionState)
    requires s.pending == []
    ensures Ended(s) ==> s.shutdownInitiated
  {
    assert Tags(s.pending) == multiset{};
  }

  /** A started session with nothing outstanding is shut down. */
  lemma {:induction false} LiveSessionPends(c: ServerConfig, s: SessionState)
    requires Inv(c, s) && s.stage != Created && s.pending == []
    ensures s.shutdownInitiated
  {
    hide Inv, MovesOn;
    if !s.shutdownInitiated {
      NotStuck(c, s);
    }
  }
}
