/** No reachable state of the program is a trap: from each of them it can still be shut
    down completely. */
module SystemShutdown {
  import opened Config
  import opened SystemMachine
  import opened SystemInvariants
  import opened SystemTheorems
  import opened SystemDrain

  /** Some continuation ends with nothing pending anywhere. */
  ghost predicate CanQuiesce(c: ServerConfig, y: System) {
    exists actions :: Feasible(c, y, actions) && Quiescent(Reached(c, y, actions))
  }

  lemma {:induction false} FirstAction(c: ServerConfig, y: System, a: Action)
    requires Can(y, a) && CanQuiesce(c, Act(c, y, a))
    ensures CanQuiesce(c, y)
  {
    hide Act, Can, Quiescent;
    var rest :| Feasible(c, Act(c, y, a), rest) && Quiescent(Reached(c, Act(c, y, a), rest));
    var actions := [a] + rest;
    assert actions[1..] == rest;
    assert Feasible(c, y, actions) && Quiescent(Reached(c, y, actions));
  }

  /** After Stop the program can get there by itself. */
  lemma {:induction false} StoppedQuiesces(c: ServerConfig, y: System)
    requires SystemInv(c, y) && y.stopping
    ensures CanQuiesce(c, y)
    decreases Load(c, y)
  {
    hide SystemInv, Quiescent, Load, Act, Can, External;
    if Quiescent(y) {
      assert Feasible(c, y, []) && Quiescent(Reached(c, y, []));
    } else {
      SystemDrainContinues(c, y);
      var a :| ByItself(y, a);
      ActInv(c, y, a);
      ActLoad(c, y, a);
      StoppedForGood(c, y, a);
      StoppedQuiesces(c, Act(c, y, a));
      hide CanQuiesce;
      FirstAction(c, y, a);
    }
  }

  /** It gets there whatever steps it takes: where a run after Stop cannot go on by itself,
      nothing is pending. Nor can it go on for ever: but for the arrival of bytes and further
      requests to stop, its length is bounded (see RunBounded and OutsideAfterStop). */
  lemma {:induction false} EveryRunQuiesces(c: ServerConfig, y: System, actions: seq<Action>)
    requires SystemInv(c, y) && y.stopping && Feasible(c, y, actions)
    requires forall a :: !ByItself(Reached(c, y, actions), a)
    ensures Quiescent(Reached(c, y, actions))
  {
    hide SystemInv, Act, Can, ByItself, Quiescent;
    ReachedInv(c, y, actions);
    StaysStopped(c, y, actions);
    if !Quiescent(Reached(c, y, actions)) {
      SystemDrainContinues(c, Reached(c, y, actions));
    }
  }

  lemma {:induction false} StaysStopped(c: ServerConfig, y: System, actions: seq<Action>)
    requires y.stopping && Feasible(c, y, actions)
    ensures Reached(c, y, actions).stopping
    decreases |actions|
  {
    if actions != [] {
      hide Act, Can;
      StoppedForGood(c, y, actions[0]);
      StaysStopped(c, Act(c, y, actions[0]), actions[1..]);
    }
  }

  /** From any reachable state, asking the server to stop can lead to the end: nothing
      pending, no member left, every session shut down (see ShutdownComplete). */
  lemma {:induction false} AlwaysStoppable(c: ServerConfig, actions: seq<Action>)
    requires Feasible(c, NewSystem(), actions) && Reached(c, NewSystem(), actions).started
    ensures CanQuiesce(c, Reached(c, NewSystem(), actions))
  {
    hide Act, Can, CanQuiesce, Safe;
    NewSystemInv(c);
    ReachedInv(c, NewSystem(), actions);
    var y := Reached(c, NewSystem(), actions);
    hide Feasible, Reached;
    if y.stopping {
      StoppedQuiesces(c, y);
    } else {
      StopTaken(c, y);
    }
  }

  lemma {:induction false} StopTaken(c: ServerConfig, y: System)
    requires SystemInv(c, y) && y.started && !y.stopping
    ensures CanQuiesce(c, y)
  {
    assert y.ending == {} by {
      hide SessionsOk, TasksOk;
    }
    var a, b := RequestStop(false), RunTask(|y.tasks|, true);
    assert Can(y, a);
    var z := Act(c, y, a);
    assert Can(z, b) && Act(c, z, b).stopping;
    hide SystemInv, CanQuiesce, Act, Can;
    ActInv(c, y, a);
    ActInv(c, z, b);
    StoppedQuiesces(c, Act(c, z, b));
    FirstAction(c, z, b);
    FirstAction(c, y, a);
  }
}
