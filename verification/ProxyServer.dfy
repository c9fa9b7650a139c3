/** The server object: its methods and handlers as they are written, against the functions
    of the system machine. */
module ProxyServer {
  import opened Basics
  import opened Config
  import opened ClientSession
  import Machine = SessionMachine
  import System = SystemMachine

  ghost function States(all: seq<Session>): (r: seq<Machine.SessionState>)
    reads all, set s | s in all :: s.outgoingBuffer, set s | s in all :: s.incomingBuffer
    ensures |r| == |all| && forall i :: 0 <= i < |all| ==> r[i] == all[i].State()
  {
    if all == [] then [] else States(all[..|all| - 1]) + [all[|all| - 1].State()]
  }

  lemma {:induction false} StatesAppend(all: seq<Session>, s: Session)
    ensures States(all + [s]) == States(all) + [s.State()]
  {
    assert (all + [s])[..|all|] == all;
  }

  /** If all sessions but one are as they were, so is the list but for that one. */
  lemma {:induction false} OneChanged(before: seq<Machine.SessionState>, after: seq<Machine.SessionState>, id: nat)
    requires id < |before| == |after| && forall i :: 0 <= i < |before| && i != id ==> before[i] == after[i]
    ensures after == before[id := after[id]]
  {
  }

  lemma {:induction false} NumbersDiffer(all: seq<Session>, s: Session, t: Session)
    requires forall i :: 0 <= i < |all| ==> all[i].id == i
    requires s in all && t in all && s.id == t.id
    ensures s == t
  {
    var i :| 0 <= i < |all| && all[i] == s;
    var j :| 0 <= j < |all| && all[j] == t;
  }

  /** As many members as numbers. */
  lemma {:induction false} CountMembers(sessions: set<Session>, all: seq<Session>)
    requires forall i :: 0 <= i < |all| ==> all[i].id == i
    requires forall s :: s in sessions ==> s in all
    ensures |set s | s in sessions :: s.id| == |sessions|
    decreases sessions
  {
    var numbers := set s | s in sessions :: s.id;
    if sessions == {} {
      assert numbers == {};
    } else {
      var x :| x in sessions;
      var rest := sessions - {x};
      CountMembers(rest, all);
      forall s | s in sessions && s.id == x.id
        ensures s == x
      {
        NumbersDiffer(all, s, x);
      }
      var ids := set s | s in rest :: s.id;
      assert x.id !in ids;
      assert sessions == rest + {x};
      assert numbers == ids + {x.id};
    }
  }

  /** Sessions are numbered in the order they are made; `all` are those made so far,
      `inserted` the numbers of those that were members, `ending` the members a running
      Stop has still to end. */
  class Server {
    const config: ServerConfig
    const strand: Strand
    var sessions: set<Session>
    var started: bool
    var stopping: bool
    var failed: bool
    var created: nat
    ghost var all: seq<Session>
    ghost var inserted: set<nat>
    ghost var ending: set<nat>

    constructor (config: ServerConfig)
      ensures Valid() && View() == System.NewSystem()
      ensures this.config == config && fresh(strand)
    {
      this.config := config;
      strand := new Strand();
      sessions, started, stopping, failed, created := {}, false, false, false, 0;
      all, inserted, ending := [], {}, {};
    }

    ghost predicate Valid()
      reads this
    {
      && created == |all|
      && (forall i :: 0 <= i < |all| ==>
            all[i].id == i && all[i].strand == strand && all[i].config == config && all[i].Valid())
      && (forall s :: s in sessions ==> s in all)
    }

    ghost function Members(): set<nat>
      reads this
    {
      set s | s in sessions :: s.id
    }

    ghost function View(): System.System
      reads this, strand, all, set s | s in all :: s.outgoingBuffer, set s | s in all :: s.incomingBuffer
    {
      System.System(started, stopping, failed, Members(), inserted, ending, strand.tasks, States(all))
    }

    method AcceptConnections()
      requires Valid()
      modifies this`all, this`created, strand
      ensures Valid() && View() == System.AcceptConnections(old(View()))
      ensures old(all) <= all
    {
      hide Machine.NewSession, States, Session.State;
      if stopping {
        return;
      }
      var session := new Session(created, config, strand);
      Add(session);
      created := created + 1;
      strand.Post(System.Accept(session.id, System.Underway));
    }

    ghost method Add(session: Session)
      requires session !in all
      modifies this`all
      ensures all == old(all) + [session]
      ensures States(all) == old(States(all)) + [session.State()]
    {
      StatesAppend(all, session);
      all := all + [session];
    }

    /** session->End() from the strand of the server. */
    method EndSession(session: Session, inline: bool)
      requires Valid() && session in all
      modifies session, strand
      ensures Valid() && View() == System.EndSession(old(View()), session.id, inline)
    {
      hide States, Session.State, Machine.DispatchEnd;
      ghost var before := States(all);
      session.End(false, inline);
      OneChanged(before, States(all), session.id);
    }

    /** sessions_.insert. */
    method Insert(session: Session)
      requires Valid() && session in all
      modifies this`sessions, this`inserted
      ensures Valid() && View() == System.Register(old(View()), session.id)
    {
      hide States, Session.State;
      sessions := sessions + {session};
      inserted := inserted + {session.id};
      assert Members() == old(Members()) + {session.id};
    }

    /** co_spawn of the coroutine of a session. */
    method SpawnSession(session: Session, inline: bool)
      requires Valid() && session in all && Machine.Enabled(session.State(), Machine.Spawn(inline))
      modifies session
      ensures Valid()
      ensures View() == System.Update(old(View()), session.id,
                          Machine.Step(config, old(session.State()), Machine.Spawn(inline)))
    {
      hide States, Session.State, Machine.Step, Machine.Enabled;
      SameErases(session);
      ghost var before := States(all);
      session.Spawn(inline);
      SameErases(session);
      OneChanged(before, States(all), session.id);
    }

    lemma {:induction false} SameErases(session: Session)
      ensures session.State().erasesPosted == session.erasesPosted
    {
    }

    /** The handler of async_accept. */
    method OnAccept(session: Session, outcome: System.Outcome, inline: bool)
      requires Valid() && session in all
      requires outcome == System.Accepted ==> Machine.Enabled(session.State(), Machine.Spawn(inline))
      modifies this, strand, session
      ensures Valid() && View() == System.OnAccept(config, old(View()), session.id, outcome, inline)
      ensures ending == old(ending)
    {
      hide States, Session.State, Machine.Step, Machine.Enabled, System.EndSession, System.Update,
           System.AcceptConnections;
      if outcome != System.Accepted {
        EndSession(session, inline);
        if stopping || outcome == System.Aborted {
          return;
        }
        strand.Post(System.Retry(System.Underway));
        return;
      }
      CountMembers(sessions, all);
      if stopping || |sessions| >= config.maxConnections {
        EndSession(session, inline);
        AcceptConnections();
        return;
      }
      Insert(session);
      SpawnSession(session, inline);
      AcceptConnections();
    }

    /** The handler of the retry timer. */
    method OnRetry(accepted: bool)
      requires Valid()
      modifies this`all, this`created, strand
      ensures Valid()
      ensures View() == if accepted then System.AcceptConnections(old(View())) else old(View())
    {
      if accepted {
        AcceptConnections();
      }
    }

    /** The task posted by a session that was closed. */
    method Erase(session: Session)
      requires Valid() && session in all
      modifies this`sessions
      ensures Valid()
      ensures View() == old(View()).(registry := old(View()).registry - {session.id})
    {
      sessions := sessions - {session};
      assert Members() == old(Members()) - {session.id};
    }

    /** Cancelling the signal wait and the retry timer, and closing the acceptor. */
    method CancelAll()
      requires Valid() && ending == {} && !stopping
      modifies this`stopping, this`ending, strand
      ensures Valid() && ending == Members()
      ensures View() == System.BeginStop(old(View()))
    {
      hide States, Session.State, System.CancelTasks;
      stopping := true;
      strand.tasks := System.CancelTasks(strand.tasks);
      ending := Members();
    }

    /** The loop of Stop ends every member, at once or by a queued call, and is a run of the
        machine: these rounds, and nothing else. */
    method EndMembers() returns (ghost rounds: seq<System.Action>)
      requires Valid() && ending == Members()
      modifies this`ending, strand, sessions
      ensures Valid() && ending == {}
      ensures forall a :: a in rounds ==> a.EndNext?
      ensures System.Feasible(config, old(View()), rounds)
      ensures View() == System.Reached(config, old(View()), rounds)
    {
      hide States, Session.State, System.Act, System.Can;
      rounds := [];
      var rest := sessions;
      ghost var begun := View();
      while rest != {}
        invariant Valid() && rest <= sessions
        invariant ending == set s | s in rest :: s.id
        invariant forall a :: a in rounds ==> a.EndNext?
        invariant System.Feasible(config, begun, rounds) && System.Reached(config, begun, rounds) == View()
        decreases rest
      {
        var session :| session in rest;
        var inline: bool := *;
        EndRound(session, rest, inline);
        rest := rest - {session};
        System.ReachedOneMore(config, begun, rounds, System.EndNext(session.id, inline));
        rounds := rounds + [System.EndNext(session.id, inline)];
      }
    }

    /** Stop on the strand of the server: a run from BeginStop on that ends every member. */
    method Stop() returns (ghost rounds: seq<System.Action>)
      requires Valid() && ending == {}
      modifies this, strand, sessions
      ensures Valid() && sessions == old(sessions) && ending == {}
      ensures forall a :: a in rounds ==> a.EndNext?
      ensures System.Feasible(config, System.BeginStop(old(View())), rounds)
      ensures View() == System.Reached(config, System.BeginStop(old(View())), rounds)
    {
      hide View;
      rounds := [];
      if stopping {
        AlreadyStopped();
        return;
      }
      CancelAll();
      rounds := EndMembers();
    }

    lemma {:induction false} AlreadyStopped()
      requires stopping
      ensures System.BeginStop(View()) == View()
    {
    }

    /** One round of the loop of Stop. */
    method EndRound(session: Session, ghost rest: set<Session>, inline: bool)
      requires Valid() && rest <= sessions && session in rest && ending == set s | s in rest :: s.id
      modifies session, strand, this`ending
      ensures Valid() && ending == set s | s in rest - {session} :: s.id
      ensures System.Can(old(View()), System.EndNext(session.id, inline))
      ensures View() == System.Act(config, old(View()), System.EndNext(session.id, inline))
    {
      hide States, Session.State, Machine.DispatchEnd, System.Update;
      forall s | s in rest && s.id == session.id
        ensures s == session
      {
        NumbersDiffer(all, s, session);
      }
      EndSession(session, inline);
      ending := ending - {session.id};
    }

    /** The handler of the signal wait. */
    method OnSignal(delivered: bool) returns (ghost rounds: seq<System.Action>)
      requires Valid() && ending == {}
      modifies this, strand, sessions
      ensures Valid() && sessions == old(sessions) && ending == {}
      ensures forall a :: a in rounds ==> a.EndNext?
      ensures var y := if delivered then System.BeginStop(old(View())) else old(View());
        System.Feasible(config, y, rounds) && View() == System.Reached(config, y, rounds)
    {
      rounds := [];
      if delivered {
        rounds := Stop();
      }
    }

    /** Stop called from a thread that does not run the strand: after an error in an event
        loop, or when a worker cannot be started. */
    method RequestStop(failure: bool)
      requires Valid() && started
      modifies this`failed, strand
      ensures Valid() && View() == System.Act(config, old(View()), System.RequestStop(failure))
    {
      hide States, Session.State;
      failed := failed || failure;
      strand.Post(System.StopCall);
    }

    method Start()
      requires Valid() && !started
      modifies this, strand
      ensures Valid() && View() == System.Act(config, old(View()), System.StartServer)
    {
      hide States, Session.State, System.AcceptConnections;
      started := true;
      strand.Post(System.Signal(System.Underway));
      AcceptConnections();
    }

    // ---- the strands ----

    method TakeTask(i: nat) returns (task: System.Task)
      requires Valid() && i < |strand.tasks|
      modifies strand
      ensures Valid() && task == old(strand.tasks[i])
      ensures View() == old(View()).(tasks := Remove(old(strand.tasks), i))
    {
      hide States, Session.State;
      task := strand.tasks[i];
      strand.tasks := Remove(strand.tasks, i);
    }

    /** A thread of the event loop takes a completed task from the strand of the server and
        runs its handler; `captured` is the session that the handler holds. If that stops the
        server, the loop of Stop runs to its end, and `rounds` are its rounds. */
    method RunHandler(i: nat, captured: Session?, inline: bool) returns (ghost rounds: seq<System.Action>)
      requires Valid() && i < |strand.tasks| && System.Can(View(), System.RunTask(i, inline))
      requires strand.tasks[i].Accept? || strand.tasks[i].Erase? ==>
        captured != null && captured in all && captured.id == strand.tasks[i].id
      modifies this, strand, sessions, if captured == null then {} else {captured}
      ensures Valid() && ending == {}
      ensures forall a :: a in rounds ==> a.EndNext?
      ensures var y := System.Act(config, old(View()), System.RunTask(i, inline));
        System.Feasible(config, y, rounds) && View() == System.Reached(config, y, rounds)
    {
      hide States, Session.State, Machine.Enabled, System.OnAccept, System.AcceptConnections, System.BeginStop, Remove;
      rounds := [];
      var task := TakeTask(i);
      match task
      case Accept(_, outcome) =>
        SameState(captured);
        OnAccept(captured, outcome, inline);
      case Retry(outcome) => OnRetry(outcome == System.Accepted);
      case Signal(outcome) => rounds := OnSignal(outcome == System.Accepted);
      case StopCall => rounds := Stop();
      case Erase(_) => Erase(captured);
    }

    lemma {:induction false} SameState(session: Session)
      requires Valid() && session in all
      ensures session.id < |View().sessions| && View().sessions[session.id] == session.State()
    {
    }
  }
}
