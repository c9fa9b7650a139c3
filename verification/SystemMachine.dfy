/** The server and all its sessions: the state behind the strand of the server, its
    handlers as functions on that state, and every event of the whole program. */
module SystemMachine {
  import opened Basics
  import opened Config
  import opened SessionMachine

  /** How an operation of the server stands: under way, or completed in one of three
      ways; an abort is the work of Stop. */
  datatype Outcome = Underway | Accepted | Refused | Aborted

  /** What is outstanding on the strand of the server. Sessions are named by their number. */
  datatype Task =
    | Accept(id: nat, outcome: Outcome)
    | Retry(outcome: Outcome)
    | Signal(outcome: Outcome)
    | StopCall
    | Erase(id: nat)

  /** `ending` holds what the loop of a running Stop has still to end; `inserted` is the
      history of `registry`. */
  datatype System = System(
    started: bool,
    stopping: bool,
    failed: bool,
    registry: set<nat>,
    inserted: set<nat>,
    ending: set<nat>,
    tasks: seq<Task>,
    sessions: seq<SessionState>)

  function NewSystem(): System {
    System(false, false, false, {}, {}, {}, [], [])
  }

  function Post(y: System, t: Task): System {
    y.(tasks := y.tasks + [t])
  }

  /** A session changes; the erase it posts, if any, is queued behind everything else. */
  function Update(y: System, id: nat, s: SessionState): System
    requires id < |y.sessions|
  {
    var t := y.(sessions := y.sessions[id := s]);
    if s.erasesPosted > y.sessions[id].erasesPosted then Post(t, Erase(id)) else t
  }

  function EndSession(y: System, id: nat, inline: bool): System
    requires id < |y.sessions|
  {
    Update(y, id, DispatchEnd(y.sessions[id], inline))
  }

  function AcceptConnections(y: System): System {
    if y.stopping then y
    else Post(y.(sessions := y.sessions + [NewSession()]), Accept(|y.sessions|, Underway))
  }

  /** Cancelling the signal wait and the retry timer, and closing the acceptor. */
  function Cancelled(t: Task): Task {
    match t
    case Accept(id, Underway) => Accept(id, Aborted)
    case Retry(Underway) => Retry(Aborted)
    case Signal(Underway) => Signal(Aborted)
    case _ => t
  }

  function CancelTasks(tasks: seq<Task>): (r: seq<Task>)
    ensures |r| == |tasks| && forall i :: 0 <= i < |tasks| ==> r[i] == Cancelled(tasks[i])
  {
    seq(|tasks|, i requires 0 <= i < |tasks| => Cancelled(tasks[i]))
  }

  /** Stop up to its loop. */
  function BeginStop(y: System): System {
    if y.stopping then y
    else y.(stopping := true, tasks := CancelTasks(y.tasks), ending := y.registry)
  }

  /** One round of that loop. */
  function EndNextSession(y: System, id: nat, inline: bool): System
    requires id < |y.sessions|
  {
    EndSession(y, id, inline).(ending := y.ending - {id})
  }

  function Register(y: System, id: nat): System {
    y.(registry := y.registry + {id}, inserted := y.inserted + {id})
  }

  function OnAccept(c: ServerConfig, y: System, id: nat, outcome: Outcome, inline: bool): System
    requires id < |y.sessions| && (outcome == Accepted ==> Enabled(y.sessions[id], Spawn(inline)))
  {
    if outcome != Accepted then
      var t := EndSession(y, id, inline);
      if t.stopping || outcome == Aborted then t else Post(t, Retry(Underway))
    else if y.stopping || |y.registry| >= c.maxConnections then
      AcceptConnections(EndSession(y, id, inline))
    else
      AcceptConnections(Update(Register(y, id), id, Step(c, y.sessions[id], Spawn(inline))))
  }

  function OnTask(c: ServerConfig, y: System, t: Task, inline: bool): System
    requires t.Accept? ==> t.id < |y.sessions|
    requires t.Accept? && t.outcome == Accepted ==> Enabled(y.sessions[t.id], Spawn(inline))
  {
    match t
    case Accept(id, outcome) => OnAccept(c, y, id, outcome, inline)
    case Retry(outcome) => if outcome == Accepted then AcceptConnections(y) else y
    case Signal(outcome) => if outcome == Accepted then BeginStop(y) else y
    case StopCall => BeginStop(y)
    case Erase(id) => y.(registry := y.registry - {id})
  }

  // ---- what can happen ----

  datatype Action =
    | StartServer
    | CompleteTask(i: nat, accepted: bool)
    | RunTask(i: nat, inline: bool)
    | EndNext(id: nat, inline: bool)
    | RequestStop(failure: bool)
    | InSession(id: nat, event: Event)

  predicate IsUnderway(t: Task) {
    match t
    case Accept(_, outcome) => outcome == Underway
    case Retry(outcome) => outcome == Underway
    case Signal(outcome) => outcome == Underway
    case _ => false
  }

  function Completed(t: Task, accepted: bool): Task {
    var outcome := if accepted then Accepted else Refused;
    match t
    case Accept(id, _) => Accept(id, outcome)
    case Retry(_) => Retry(outcome)
    case Signal(_) => Signal(outcome)
    case _ => t
  }

  /** While the loop of Stop runs, no other handler of the server's strand does. Sessions
      run on their own strands all the time. Only an accept can fail. */
  predicate Can(y: System, a: Action) {
    match a
    case StartServer => !y.started
    case CompleteTask(i, accepted) =>
      i < |y.tasks| && IsUnderway(y.tasks[i]) && (accepted || y.tasks[i].Accept?)
    case RunTask(i, inline) =>
      && i < |y.tasks| && !IsUnderway(y.tasks[i]) && y.ending == {}
      && (y.tasks[i].Accept? ==>
            && y.tasks[i].id < |y.sessions|
            && (y.tasks[i].outcome == Accepted ==> Enabled(y.sessions[y.tasks[i].id], Spawn(inline))))
    case EndNext(id, _) => id in y.ending && id < |y.sessions|
    case RequestStop(_) => y.started
    case InSession(id, e) => id < |y.sessions| && Own(e) && Enabled(y.sessions[id], e)
  }

  function Act(c: ServerConfig, y: System, a: Action): System
    requires Can(y, a)
  {
    match a
    case StartServer => AcceptConnections(Post(y.(started := true), Signal(Underway)))
    case CompleteTask(i, accepted) => y.(tasks := y.tasks[i := Completed(y.tasks[i], accepted)])
    case RunTask(i, inline) => OnTask(c, y.(tasks := Remove(y.tasks, i)), y.tasks[i], inline)
    case EndNext(id, inline) => EndNextSession(y, id, inline)
    case RequestStop(failure) => Post(y.(failed := y.failed || failure), StopCall)
    case InSession(id, e) => Update(y, id, Step(c, y.sessions[id], e))
  }

  predicate Feasible(c: ServerConfig, y: System, actions: seq<Action>)
    decreases |actions|
  {
    actions == [] || (Can(y, actions[0]) && Feasible(c, Act(c, y, actions[0]), actions[1..]))
  }

  function Reached(c: ServerConfig, y: System, actions: seq<Action>): System
    requires Feasible(c, y, actions)
    decreases |actions|
  {
    if actions == [] then y else Reached(c, Act(c, y, actions[0]), actions[1..])
  }

  lemma {:induction false} ReachedOneMore(c: ServerConfig, y: System, actions: seq<Action>, a: Action)
    requires Feasible(c, y, actions) && Can(Reached(c, y, actions), a)
    ensures Feasible(c, y, actions + [a])
    ensures Reached(c, y, actions + [a]) == Act(c, Reached(c, y, actions), a)
    decreases |actions|
  {
    hide Can, Act;
    if actions == [] {
      assert actions + [a] == [a];
      assert Feasible(c, Act(c, y, a), [a][1..]);
    } else {
      assert (actions + [a])[1..] == actions[1..] + [a];
      ReachedOneMore(c, Act(c, y, actions[0]), actions[1..], a);
    }
  }
}
