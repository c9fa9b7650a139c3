/** What holds of the server and its sessions in every reachable state. */
module SystemInvariants {
  import opened Basics
  import opened Config
  import opened Outstanding
  import opened SessionMachine
  import opened SessionInvariants
  import opened SessionLifecycle
  import opened SystemMachine

  // ---- the invariant ----

  predicate Accepting(t: Task) {
    t.Accept? || t.Retry?
  }

  /** Two tasks that are never outstanding together. */
  predicate Conflict(a: Task, b: Task) {
    (Accepting(a) && Accepting(b)) || (a.Erase? && a == b)
  }

  ghost predicate Distinct(tasks: seq<Task>) {
    forall i, j :: 0 <= i < j < |tasks| ==> !Conflict(tasks[i], tasks[j])
  }

  /** What never changes about the outstanding tasks: aborts are the work of Stop, and
      Stop leaves nothing under way. */
  ghost predicate TasksOk(y: System) {
    && Distinct(y.tasks)
    && (!y.started ==> y.tasks == [] && !y.stopping)
    && (forall t :: t in y.tasks && IsUnderway(t) ==> !y.stopping)
    && (forall t :: t in y.tasks && t.Accept? && t.outcome == Aborted ==> y.stopping)
    && (Retry(Aborted) in y.tasks || Signal(Aborted) in y.tasks ==> y.stopping)
    && Retry(Refused) !in y.tasks && Signal(Refused) !in y.tasks
  }

  /** Accepting goes on until Stop. */
  ghost predicate AcceptsOk(y: System) {
    y.started && !y.stopping ==> exists t :: t in y.tasks && Accepting(t)
  }

  ghost predicate NoneAccepting(y: System) {
    forall t :: t in y.tasks ==> !Accepting(t)
  }

  ghost predicate Named(y: System) {
    && (!y.started ==> y.sessions == [])
    && (forall id :: id in y.inserted ==> id < |y.sessions|)
    && y.registry <= y.inserted
    && y.ending <= y.registry
    && (y.ending != {} ==> y.stopping)
    && (forall id: nat, outcome :: Accept(id, outcome) in y.tasks ==> id < |y.sessions|)
    && (forall id: nat :: Erase(id) in y.tasks ==> id < |y.sessions|)
  }

  /** A session held by an accept: as it was made. */
  ghost predicate Untouched(s: SessionState) {
    s == NewSession()
  }

  ghost predicate Held(y: System, id: nat) {
    exists outcome :: Accept(id, outcome) in y.tasks
  }

  /** One session and the server. A registered session that is shut down has its one erase
      queued, an erased one was shut down; one that is not registered is held by an accept
      or is being ended; after Stop every registered one is being ended, or is about to be. */
  ghost predicate SessionOk(c: ServerConfig, y: System, id: nat)
    requires id < |y.sessions|
  {
    var s := y.sessions[id];
    && Inv(c, s)
    && (Erase(id) in y.tasks ==> s.shutdownInitiated)
    && (id in y.inserted ==>
          && s.stage != Created
          && !Held(y, id)
          && (id in y.registry && s.shutdownInitiated <==> Erase(id) in y.tasks)
          && (id !in y.registry ==> s.shutdownInitiated)
          && (id in y.registry && y.stopping && id !in y.ending ==> Ended(s)))
    && (id !in y.inserted ==>
          && s.stage == Created
          && (Held(y, id) ==> Untouched(s))
          && (Held(y, id) || Ended(s)))
  }

  ghost predicate SessionsOk(c: ServerConfig, y: System) {
    forall id :: 0 <= id < |y.sessions| ==> SessionOk(c, y, id)
  }

  ghost predicate Safe(c: ServerConfig, y: System) {
    TasksOk(y) && Named(y) && SessionsOk(c, y) && |y.registry| <= c.maxConnections
  }

  ghost predicate SystemInv(c: ServerConfig, y: System) {
    Safe(c, y) && AcceptsOk(y)
  }

  // ---- task lists ----

  lemma {:induction false} RemovedTasks(tasks: seq<Task>, i: nat)
    requires i < |tasks|
    ensures forall t :: t in Remove(tasks, i) ==> t in tasks
    ensures forall t :: t in tasks ==> t == tasks[i] || t in Remove(tasks, i)
    ensures Distinct(tasks) ==> Distinct(Remove(tasks, i))
    ensures Distinct(tasks) ==> forall t :: t in Remove(tasks, i) ==> !Conflict(t, tasks[i])
  {
    var r := Remove(tasks, i);
    forall t | t in r
      ensures t in tasks && (Distinct(tasks) ==> !Conflict(t, tasks[i]))
    {
      var k :| 0 <= k < |r| && r[k] == t;
      assert r[k] == tasks[if k < i then k else k + 1];
    }
    forall t | t in tasks
      ensures t == tasks[i] || t in r
    {
      var k :| 0 <= k < |tasks| && tasks[k] == t;
      if k != i {
        assert r[if k < i then k else k - 1] == t;
      }
    }
    if Distinct(tasks) {
      forall a, b | 0 <= a < b < |r|
        ensures !Conflict(r[a], r[b])
      {
        assert r[a] == tasks[if a < i then a else a + 1] && r[b] == tasks[if b < i then b else b + 1];
      }
    }
  }

  lemma {:induction false} PostedDistinct(tasks: seq<Task>, t: Task)
    requires Distinct(tasks) && forall u :: u in tasks ==> !Conflict(u, t)
    ensures Distinct(tasks + [t])
    ensures forall u :: u in tasks + [t] <==> u in tasks || u == t
  {
    forall a, b | 0 <= a < b < |tasks + [t]|
      ensures !Conflict((tasks + [t])[a], (tasks + [t])[b])
    {
      assert tasks[a] in tasks;
    }
  }

  lemma {:induction false} CancelledTasks(tasks: seq<Task>)
    ensures Distinct(tasks) ==> Distinct(CancelTasks(tasks))
    ensures forall t :: t in CancelTasks(tasks) ==> !IsUnderway(t) && exists u :: u in tasks && Cancelled(u) == t
    ensures forall u :: u in tasks ==> Cancelled(u) in CancelTasks(tasks)
  {
    var r := CancelTasks(tasks);
    forall t | t in r
      ensures !IsUnderway(t) && exists u :: u in tasks && Cancelled(u) == t
    {
      var k :| 0 <= k < |r| && r[k] == t;
      assert tasks[k] in tasks;
    }
    forall u | u in tasks
      ensures Cancelled(u) in r
    {
      var k :| 0 <= k < |tasks| && tasks[k] == u;
      assert r[k] == Cancelled(u);
    }
  }

  // ---- what the building blocks keep ----

  /** Nothing that matters to session `k` differs. */
  ghost predicate SameFor(y: System, z: System, k: nat) {
    && k < |y.sessions| && k < |z.sessions| && y.sessions[k] == z.sessions[k]
    && (k in y.inserted <==> k in z.inserted)
    && (k in y.registry <==> k in z.registry)
    && (k in y.ending <==> k in z.ending)
    && y.stopping == z.stopping
    && (Erase(k) in y.tasks <==> Erase(k) in z.tasks)
    && (Held(y, k) <==> Held(z, k))
  }

  lemma {:induction false} SameSessionOk(c: ServerConfig, y: System, z: System, k: nat)
    requires SameFor(y, z, k) && SessionOk(c, y, k)
    ensures SessionOk(c, z, k)
  {
    hide Inv, Held, Ended, Untouched;
  }

  /** How one session may change under the eyes of the server. */
  ghost predicate MayBecome(c: ServerConfig, s: SessionState, t: SessionState) {
    && Inv(c, t)
    && (s.shutdownInitiated ==> t.shutdownInitiated)
    && (Ended(s) ==> Ended(t))
    && (s.stage == Created <==> t.stage == Created)
  }

  lemma {:induction false} ErasePosted(c: ServerConfig, s: SessionState)
    requires Inv(c, s)
    ensures s.erasesPosted == if s.shutdownInitiated then 1 else 0
  {
  }

  lemma {:induction false} UpdateTasks(c: ServerConfig, y: System, id: nat, s: SessionState)
    requires id < |y.sessions| && TasksOk(y) && Named(y) && y.started
    requires Erase(id) in y.tasks ==> s.erasesPosted <= y.sessions[id].erasesPosted
    ensures var z := Update(y, id, s);
      && TasksOk(z) && Named(z) && (AcceptsOk(y) ==> AcceptsOk(z)) && (NoneAccepting(y) ==> NoneAccepting(z))
      && (forall t :: t in y.tasks ==> t in z.tasks)
      && (forall t :: t in z.tasks <==> t in y.tasks || (t == Erase(id) && s.erasesPosted > y.sessions[id].erasesPosted))
      && (forall k :: Held(y, k) <==> Held(z, k))
  {
    if s.erasesPosted > y.sessions[id].erasesPosted {
      PostedDistinct(y.tasks, Erase(id));
    }
    var z := Update(y, id, s);
    forall k: nat
      ensures Held(y, k) <==> Held(z, k)
    {
      if Held(y, k) {
        var o :| Accept(k, o) in y.tasks;
        assert Accept(k, o) in z.tasks;
      }
    }
  }

  /** Any session step, and the erase it may post, keep the server's invariant. */
  lemma {:induction false} UpdateSafe(c: ServerConfig, y: System, id: nat, s: SessionState)
    requires Safe(c, y) && id < |y.sessions| && y.started
    requires MayBecome(c, y.sessions[id], s) && !Held(y, id)
    ensures Safe(c, Update(y, id, s))
    ensures AcceptsOk(y) ==> AcceptsOk(Update(y, id, s))
    ensures NoneAccepting(y) ==> NoneAccepting(Update(y, id, s))
  {
    hide Inv, Ended, Untouched, Distinct;
    var z := Update(y, id, s);
    assert SessionOk(c, y, id);
    ErasePosted(c, y.sessions[id]);
    ErasePosted(c, s);
    UpdateTasks(c, y, id, s);
    hide TasksOk, Named, AcceptsOk, NoneAccepting, Held;
    assert SessionOk(c, z, id);
    forall k | 0 <= k < |z.sessions| && k != id
      ensures SessionOk(c, z, k)
    {
      assert SessionOk(c, y, k);
      SameSessionOk(c, y, z, k);
    }
  }

  /** Between taking out the accept that held a session and dealing with the session. */
  ghost predicate Loose(c: ServerConfig, y: System, id: nat) {
    && TasksOk(y) && Named(y) && |y.registry| <= c.maxConnections && y.started
    && id < |y.sessions| && id !in y.inserted && Untouched(y.sessions[id])
    && Erase(id) !in y.tasks && !Held(y, id)
    && NoneAccepting(y) && y.ending == {}
    && forall k :: 0 <= k < |y.sessions| && k != id ==> SessionOk(c, y, k)
  }

  lemma {:induction false} OthersUnchanged(c: ServerConfig, y: System, z: System, id: nat)
    requires |y.sessions| == |z.sessions|
    requires forall k :: 0 <= k < |y.sessions| && k != id ==> SessionOk(c, y, k)
    requires forall k :: 0 <= k < |y.sessions| && k != id ==> SameFor(y, z, k)
    ensures forall k :: 0 <= k < |z.sessions| && k != id ==> SessionOk(c, z, k)
  {
    hide SessionOk;
    forall k | 0 <= k < |z.sessions| && k != id
      ensures SessionOk(c, z, k)
    {
      SameSessionOk(c, y, z, k);
    }
  }

  lemma {:induction false} EndedNew(c: ServerConfig, s: SessionState, inline: bool)
    requires Untouched(s)
    ensures var t := DispatchEnd(s, inline);
      Inv(c, t) && Ended(t) && t.stage == Created && (t.erasesPosted > s.erasesPosted ==> t.shutdownInitiated)
  {
    hide Inv, Tags;
    NewSessionInv(c);
    CallEndInv(c, s, inline);
    CallEndFollows(s, inline);
  }

  /** The server ends a session it did not register. */
  lemma {:induction false} EndLoose(c: ServerConfig, y: System, id: nat, inline: bool)
    requires Loose(c, y, id)
    ensures Safe(c, EndSession(y, id, inline)) && NoneAccepting(EndSession(y, id, inline))
    ensures EndSession(y, id, inline).started && EndSession(y, id, inline).ending == {}
    ensures EndSession(y, id, inline).stopping == y.stopping
  {
    hide Inv, Ended, Untouched, Distinct, DispatchEnd;
    var s := DispatchEnd(y.sessions[id], inline);
    EndedNew(c, y.sessions[id], inline);
    UpdateTasks(c, y, id, s);
    var z := EndSession(y, id, inline);
    assert SessionOk(c, z, id);
    hide TasksOk, Named, NoneAccepting, Held, SessionOk;
    OthersUnchanged(c, y, z, id);
  }

  lemma {:induction false} NewSessionOk(c: ServerConfig, y: System, id: nat, outcome: Outcome)
    requires id < |y.sessions| && y.sessions[id] == NewSession() && id !in y.inserted && Erase(id) !in y.tasks
    requires Accept(id, outcome) in y.tasks
    ensures SessionOk(c, y, id)
  {
    hide Inv;
    NewSessionInv(c);
  }

  /** The acceptor goes on: one accept is outstanding again, unless Stop was called. */
  lemma {:induction false} AcceptNext(c: ServerConfig, y: System)
    requires Safe(c, y) && NoneAccepting(y) && y.started
    ensures SystemInv(c, AcceptConnections(y))
  {
    hide Inv, Ended, Untouched, Distinct, NewSession;
    if !y.stopping {
      var id := |y.sessions|;
      var z := AcceptConnections(y);
      PostedDistinct(y.tasks, Accept(id, Underway));
      assert Accept(id, Underway) in z.tasks;
      assert TasksOk(z) && Named(z);
      NewSessionOk(c, z, id, Underway);
      forall k | 0 <= k < id
        ensures SessionOk(c, z, k)
      {
        assert SessionOk(c, y, k);
        AcceptSameFor(y, z, k);
        SameSessionOk(c, y, z, k);
      }
    }
  }

  lemma {:induction false} AcceptSameFor(y: System, z: System, k: nat)
    requires k < |y.sessions| && !y.stopping && z == AcceptConnections(y)
    ensures SameFor(y, z, k)
  {
    hide NewSession;
    var id := |y.sessions|;
    assert z.tasks == y.tasks + [Accept(id, Underway)];
    assert z.sessions[k] == y.sessions[k];
    assert Erase(k) in y.tasks <==> Erase(k) in z.tasks;
    forall o
      ensures Accept(k, o) in y.tasks <==> Accept(k, o) in z.tasks
    {
    }
    assert Held(y, k) <==> Held(z, k);
  }

  /** The server registers and starts a session. */
  lemma {:induction false} InsertLoose(c: ServerConfig, y: System, id: nat, inline: bool)
    requires Loose(c, y, id) && !y.stopping && |y.registry| < c.maxConnections
    ensures Enabled(y.sessions[id], Spawn(inline))
    ensures var z := Update(Register(y, id), id, Step(c, y.sessions[id], Spawn(inline)));
      Safe(c, z) && NoneAccepting(z) && z.started
  {
    hide Inv, Ended, Distinct, Step, NewSession, Enabled;
    SpawnedSession(c, inline);
    RegisterLoose(c, y, id, Step(c, y.sessions[id], Spawn(inline)));
  }

  lemma {:induction false} RegisterLoose(c: ServerConfig, y: System, id: nat, s: SessionState)
    requires Loose(c, y, id) && !y.stopping && |y.registry| < c.maxConnections
    requires Inv(c, s) && !s.shutdownInitiated && s.stage != Created && s.erasesPosted == 0
    ensures var z := Update(Register(y, id), id, s);
      Safe(c, z) && NoneAccepting(z) && z.started
  {
    hide Inv, Ended, Distinct;
    var z := Update(Register(y, id), id, s);
    assert z == y.(registry := y.registry + {id}, inserted := y.inserted + {id}, sessions := y.sessions[id := s]);
    hide Update, Register, Untouched, NewSession;
    assert SessionOk(c, z, id);
    hide SessionOk;
    OthersUnchanged(c, y, z, id);
  }

  lemma {:induction false} SpawnedSession(c: ServerConfig, inline: bool)
    ensures Enabled(NewSession(), Spawn(inline))
    ensures var n := Step(c, NewSession(), Spawn(inline));
      Inv(c, n) && !n.shutdownInitiated && n.stage != Created && n.erasesPosted == 0
  {
    hide Inv;
    NewSessionInv(c);
    StepInv(c, NewSession(), Spawn(inline));
  }

  // ---- the handlers of the server ----

  /** Taking out an accept leaves its session loose. */
  lemma {:induction false} TakeAccept(c: ServerConfig, y: System, i: nat)
    requires i < |y.tasks| && y.tasks[i].Accept? && y.ending == {}
    requires SystemInv(c, y)
    ensures Loose(c, y.(tasks := Remove(y.tasks, i)), y.tasks[i].id)
  {
    hide Inv, Ended, Distinct;
    var id, outcome := y.tasks[i].id, y.tasks[i].outcome;
    assert y.tasks[i] == Accept(id, outcome) && y.tasks[i] in y.tasks;
    RemovedTasks(y.tasks, i);
    var z := y.(tasks := Remove(y.tasks, i));
    assert Held(y, id);
    assert SessionOk(c, y, id);
    assert !y.sessions[id].shutdownInitiated;
    hide Untouched, NewSession;
    assert !Held(z, id);
    assert TasksOk(z) && Named(z) && NoneAccepting(z);
    forall k | 0 <= k < |y.sessions| && k != id
      ensures SessionOk(c, z, k)
    {
      assert SessionOk(c, y, k);
      RemoveSameFor(y, i, k);
      SameSessionOk(c, y, z, k);
    }
  }

  lemma {:induction false} RemoveSameFor(y: System, i: nat, k: nat)
    requires i < |y.tasks| && k < |y.sessions|
    requires y.tasks[i] != Erase(k) && (y.tasks[i].Accept? ==> y.tasks[i].id != k)
    ensures SameFor(y, y.(tasks := Remove(y.tasks, i)), k)
  {
    RemovedTasks(y.tasks, i);
    var z := y.(tasks := Remove(y.tasks, i));
    if Held(y, k) {
      var o :| Accept(k, o) in y.tasks;
      assert Accept(k, o) in z.tasks;
    }
  }

  lemma {:induction false} OnAcceptInv(c: ServerConfig, y: System, id: nat, outcome: Outcome, inline: bool)
    requires Loose(c, y, id) && (outcome == Aborted ==> y.stopping)
    requires Enabled(y.sessions[id], Spawn(inline))
    ensures SystemInv(c, OnAccept(c, y, id, outcome, inline))
  {
    hide Inv, Safe, Loose, EndSession, AcceptConnections, Step, Enabled;
    LooseFacts(c, y, id);
    EndLoose(c, y, id, inline);
    var t := EndSession(y, id, inline);
    if outcome != Accepted {
      if !t.stopping && outcome != Aborted {
        RetryNext(c, t);
      }
    } else if y.stopping || |y.registry| >= c.maxConnections {
      AcceptNext(c, t);
    } else {
      InsertLoose(c, y, id, inline);
      AcceptNext(c, Update(Register(y, id), id, Step(c, y.sessions[id], Spawn(inline))));
    }
  }

  lemma {:induction false} LooseFacts(c: ServerConfig, y: System, id: nat)
    requires Loose(c, y, id)
    ensures id < |y.sessions| && y.started
    ensures Enabled(y.sessions[id], Spawn(true)) && Enabled(y.sessions[id], Spawn(false))
  {
    hide Inv;
  }

  lemma {:induction false} RetryNext(c: ServerConfig, y: System)
    requires Safe(c, y) && NoneAccepting(y) && y.started && !y.stopping
    ensures SystemInv(c, Post(y, Retry(Underway)))
  {
    hide Inv, Ended, Untouched, Distinct, SessionOk;
    PostedDistinct(y.tasks, Retry(Underway));
    var z := Post(y, Retry(Underway));
    assert Retry(Underway) in z.tasks;
    assert TasksOk(z) && Named(z);
    forall k | 0 <= k < |z.sessions|
      ensures SessionOk(c, z, k)
    {
      PostSameFor(y, Retry(Underway), k);
      SameSessionOk(c, y, z, k);
    }
  }

  lemma {:induction false} PostSameFor(y: System, t: Task, k: nat)
    requires k < |y.sessions| && !t.Accept? && !t.Erase?
    ensures SameFor(y, Post(y, t), k)
  {
    var z := Post(y, t);
    assert forall u :: u in z.tasks <==> u in y.tasks || u == t;
    if Held(y, k) {
      var o :| Accept(k, o) in y.tasks;
      assert Accept(k, o) in z.tasks;
    }
  }

  /** Taking out a task that names no session. */
  lemma {:induction false} TakeOther(c: ServerConfig, y: System, i: nat)
    requires i < |y.tasks| && !y.tasks[i].Accept? && !y.tasks[i].Erase?
    requires SystemInv(c, y)
    ensures var z := y.(tasks := Remove(y.tasks, i));
      && Safe(c, z)
      && (y.tasks[i].Retry? ==> NoneAccepting(z))
      && (!y.tasks[i].Retry? ==> AcceptsOk(z))
      && y.started
  {
    hide Inv, Ended, Untouched, Distinct, SessionOk;
    assert y.tasks[i] in y.tasks;
    RemovedTasks(y.tasks, i);
    var z := y.(tasks := Remove(y.tasks, i));
    forall k | 0 <= k < |y.sessions|
      ensures SessionOk(c, z, k)
    {
      RemoveSameFor(y, i, k);
      SameSessionOk(c, y, z, k);
    }
  }

  /** Stop up to its loop: nothing is under way any more, every member is due to be ended. */
  lemma {:induction false} BeginStopInv(c: ServerConfig, y: System)
    requires Safe(c, y) && AcceptsOk(y) && y.started && y.ending == {}
    ensures SystemInv(c, BeginStop(y))
  {
    hide Inv, Ended, Untouched, Distinct, CancelTasks;
    if !y.stopping {
      var z := BeginStop(y);
      CancelledTasks(y.tasks);
      CancelledNames(y);
      assert TasksOk(z) && Named(z);
      forall k | 0 <= k < |z.sessions|
        ensures SessionOk(c, z, k)
      {
        assert SessionOk(c, y, k);
      }
    }
  }

  lemma {:induction false} CancelledNames(y: System)
    ensures var z := y.(stopping := true, tasks := CancelTasks(y.tasks), ending := y.registry);
      && (forall k: nat :: Held(y, k) <==> Held(z, k))
      && (forall k: nat :: Erase(k) in y.tasks <==> Erase(k) in z.tasks)
      && (Retry(Refused) in z.tasks ==> Retry(Refused) in y.tasks)
      && (Signal(Refused) in z.tasks ==> Signal(Refused) in y.tasks)
  {
    hide CancelTasks, Distinct;
    CancelledTasks(y.tasks);
    var z := y.(stopping := true, tasks := CancelTasks(y.tasks), ending := y.registry);
    forall k: nat
      ensures Held(y, k) <==> Held(z, k)
    {
      CancelledHeld(y.tasks, k);
    }
    forall k: nat
      ensures Erase(k) in y.tasks <==> Erase(k) in z.tasks
    {
      assert Cancelled(Erase(k)) == Erase(k);
    }
  }

  lemma {:induction false} CancelledHeld(tasks: seq<Task>, k: nat)
    ensures (exists o :: Accept(k, o) in tasks) <==> (exists o :: Accept(k, o) in CancelTasks(tasks))
  {
    CancelledTasks(tasks);
    var r := CancelTasks(tasks);
    if o :| Accept(k, o) in tasks {
      assert Cancelled(Accept(k, o)) in r;
      assert Accept(k, if o == Underway then Aborted else o) in r;
    }
    if o :| Accept(k, o) in r {
      var u :| u in tasks && Cancelled(u) == Accept(k, o);
      assert u == Accept(k, u.outcome);
    }
  }

  /** An erase runs: the member was shut down. */
  lemma {:induction false} EraseInv(c: ServerConfig, y: System, i: nat)
    requires i < |y.tasks| && y.tasks[i].Erase? && y.ending == {}
    requires SystemInv(c, y)
    ensures SystemInv(c, y.(tasks := Remove(y.tasks, i), registry := y.registry - {y.tasks[i].id}))
  {
    hide Inv, Ended, Untouched, Distinct;
    var id := y.tasks[i].id;
    assert y.tasks[i] == Erase(id) && y.tasks[i] in y.tasks;
    RemovedTasks(y.tasks, i);
    var z := y.(tasks := Remove(y.tasks, i), registry := y.registry - {id});
    assert Erase(id) !in z.tasks;
    assert TasksOk(z) && Named(z) && AcceptsOk(z);
    CardinalityShrinks(y.registry, id);
    forall k | 0 <= k < |z.sessions|
      ensures SessionOk(c, z, k)
    {
      assert SessionOk(c, y, k);
      EraseHeld(y, i, k);
    }
  }

  lemma {:induction false} EraseHeld(y: System, i: nat, k: nat)
    requires i < |y.tasks| && y.tasks[i].Erase?
    ensures var z := y.(tasks := Remove(y.tasks, i), registry := y.registry - {y.tasks[i].id});
      && (Held(y, k) <==> Held(z, k))
      && (k != y.tasks[i].id ==> (Erase(k) in y.tasks <==> Erase(k) in z.tasks))
  {
    RemovedTasks(y.tasks, i);
    var z := y.(tasks := Remove(y.tasks, i), registry := y.registry - {y.tasks[i].id});
    if Held(y, k) {
      var o :| Accept(k, o) in y.tasks;
      assert Accept(k, o) in z.tasks;
    }
  }

  lemma {:induction false} CardinalityShrinks(s: set<nat>, id: nat)
    ensures |s - {id}| <= |s|
  {
    if id in s {
      assert s == (s - {id}) + {id};
    } else {
      assert s - {id} == s;
    }
  }

  // ---- every action, every run ----

  lemma {:induction false} RunTaskInv(c: ServerConfig, y: System, i: nat, inline: bool)
    requires Can(y, RunTask(i, inline)) && SystemInv(c, y)
    ensures SystemInv(c, Act(c, y, RunTask(i, inline)))
  {
    var t := y.tasks[i];
    var z := y.(tasks := Remove(y.tasks, i));
    assert t.Accept? && t.outcome == Aborted ==> y.stopping by {
      hide Distinct, SessionsOk;
      assert t in y.tasks;
    }
    hide SystemInv, Safe, Loose, OnAccept, BeginStop, AcceptConnections, Remove, Enabled, AcceptsOk;
    match t
    case Accept(id, outcome) =>
      TakeAccept(c, y, i);
      LooseFacts(c, z, id);
      OnAcceptInv(c, z, id, outcome, inline);
    case Erase(_) =>
      EraseInv(c, y, i);
    case Retry(outcome) =>
      TakeOther(c, y, i);
      RetryInv(c, y, i, outcome);
    case Signal(outcome) =>
      TakeOther(c, y, i);
      OtherTaskInv(c, z);
      BeginStopInv(c, z);
    case StopCall =>
      TakeOther(c, y, i);
      BeginStopInv(c, z);
  }

  lemma {:induction false} RetryInv(c: ServerConfig, y: System, i: nat, outcome: Outcome)
    requires i < |y.tasks| && y.tasks[i] == Retry(outcome) && outcome != Underway
    requires SystemInv(c, y)
    ensures var z := y.(tasks := Remove(y.tasks, i));
      SystemInv(c, if outcome == Accepted then AcceptConnections(z) else z)
  {
    TakeOther(c, y, i);
    var z := y.(tasks := Remove(y.tasks, i));
    assert y.tasks[i] in y.tasks;
    if outcome == Accepted {
      AcceptNext(c, z);
    }
  }

  lemma {:induction false} OtherTaskInv(c: ServerConfig, y: System)
    requires Safe(c, y) && AcceptsOk(y)
    ensures SystemInv(c, y)
  {
  }

  lemma {:induction false} CompleteTaskInv(c: ServerConfig, y: System, i: nat, accepted: bool)
    requires Can(y, CompleteTask(i, accepted)) && SystemInv(c, y)
    ensures SystemInv(c, Act(c, y, CompleteTask(i, accepted)))
  {
    hide Inv, Ended, Untouched, SessionOk;
    var t, u := y.tasks[i], Completed(y.tasks[i], accepted);
    var z := y.(tasks := y.tasks[i := u]);
    assert t in y.tasks && z.tasks[i] == u;
    ReplacedTasks(y.tasks, i, u);
    assert u in z.tasks;
    assert TasksOk(z) && Named(z) && AcceptsOk(z);
    forall k | 0 <= k < |z.sessions|
      ensures SessionOk(c, z, k)
    {
      CompleteSameFor(y, i, accepted, k);
      SameSessionOk(c, y, z, k);
    }
  }

  lemma {:induction false} ReplacedTasks(tasks: seq<Task>, i: nat, u: Task)
    requires i < |tasks| && Distinct(tasks) && !tasks[i].Erase? && !u.Erase?
    requires Accepting(u) == Accepting(tasks[i])
    ensures Distinct(tasks[i := u])
    ensures forall t :: t in tasks[i := u] ==> t in tasks || t == u
    ensures forall t :: t in tasks && t != tasks[i] ==> t in tasks[i := u]
  {
    forall t | t in tasks && t != tasks[i]
      ensures t in tasks[i := u]
    {
      var k :| 0 <= k < |tasks| && tasks[k] == t;
      assert tasks[i := u][k] == t;
    }
  }

  lemma {:induction false} CompleteSameFor(y: System, i: nat, accepted: bool, k: nat)
    requires i < |y.tasks| && IsUnderway(y.tasks[i]) && Distinct(y.tasks) && k < |y.sessions|
    ensures SameFor(y, y.(tasks := y.tasks[i := Completed(y.tasks[i], accepted)]), k)
  {
    var u := Completed(y.tasks[i], accepted);
    var z := y.(tasks := y.tasks[i := u]);
    ReplacedTasks(y.tasks, i, u);
    assert u in z.tasks && y.tasks[i] in y.tasks by {
      assert z.tasks[i] == u;
    }
    if Held(y, k) {
      var o :| Accept(k, o) in y.tasks;
      assert Accept(k, o) in z.tasks || Accept(k, u.outcome) in z.tasks;
    }
    if Held(z, k) {
      var o :| Accept(k, o) in z.tasks;
      assert Accept(k, o) in y.tasks || Accept(k, y.tasks[i].outcome) in y.tasks;
    }
  }

  /** A member taken off the list of a running Stop is being ended. */
  lemma {:induction false} EndNextInv(c: ServerConfig, y: System, id: nat, inline: bool)
    requires Can(y, EndNext(id, inline)) && SystemInv(c, y)
    ensures SystemInv(c, Act(c, y, EndNext(id, inline)))
  {
    hide Inv, Ended, Untouched, Distinct, DispatchEnd, MayBecome, Update, TasksOk, Held;
    var s := DispatchEnd(y.sessions[id], inline);
    assert y.started;
    MemberEnds(c, y, id, inline);
    UpdateSafe(c, y, id, s);
    UpdateKeeps(y, id, s);
    EndingShrinks(c, Update(y, id, s), id);
  }

  lemma {:induction false} EndingShrinks(c: ServerConfig, u: System, id: nat)
    requires Safe(c, u) && AcceptsOk(u)
    requires id in u.ending && Ended(u.sessions[id])
    ensures SystemInv(c, u.(ending := u.ending - {id}))
  {
    hide Inv, Ended, Untouched, Distinct, TasksOk, Held;
    var z := u.(ending := u.ending - {id});
    EndingOnly(u, z);
    forall k | 0 <= k < |z.sessions|
      ensures SessionOk(c, z, k)
    {
      assert SessionOk(c, u, k);
    }
  }

  lemma {:induction false} MemberEnds(c: ServerConfig, y: System, id: nat, inline: bool)
    requires id < |y.sessions| && SessionOk(c, y, id) && id in y.inserted
    ensures var s := DispatchEnd(y.sessions[id], inline);
      MayBecome(c, y.sessions[id], s) && Ended(s) && !Held(y, id)
  {
    hide Inv, Held, Ended, DispatchEnd;
    CallEndInv(c, y.sessions[id], inline);
    CallEndFollows(y.sessions[id], inline);
    EndedFollows(y.sessions[id], DispatchEnd(y.sessions[id], inline));
  }

  lemma {:induction false} EndedFollows(s: SessionState, t: SessionState)
    requires Follows(s, t) && Ended(t)
    ensures s.shutdownInitiated ==> t.shutdownInitiated
    ensures Ended(s) ==> Ended(t)
  {
  }

  lemma {:induction false} UpdateKeeps(y: System, id: nat, s: SessionState)
    requires id < |y.sessions|
    ensures var u := Update(y, id, s);
      && u.sessions == y.sessions[id := s]
      && u.registry == y.registry && u.inserted == y.inserted && u.ending == y.ending
      && u.stopping == y.stopping && u.started == y.started
  {
  }

  lemma {:induction false} EndingOnly(u: System, z: System)
    requires z == u.(ending := z.ending)
    ensures TasksOk(u) ==> TasksOk(z)
    ensures forall k :: Held(u, k) <==> Held(z, k)
    ensures AcceptsOk(u) ==> AcceptsOk(z)
  {
    hide Distinct;
  }

  lemma {:induction false} InSessionInv(c: ServerConfig, y: System, id: nat, e: Event)
    requires Can(y, InSession(id, e)) && SystemInv(c, y)
    ensures SystemInv(c, Act(c, y, InSession(id, e)))
  {
    hide Inv, Ended, Untouched, Distinct, Step, MayBecome, Update, TasksOk, Held, Enabled;
    assert y.started;
    OwnStep(c, y, id, e);
    UpdateSafe(c, y, id, Step(c, y.sessions[id], e));
  }

  lemma {:induction false} OwnStep(c: ServerConfig, y: System, id: nat, e: Event)
    requires id < |y.sessions| && SessionOk(c, y, id) && Own(e) && Enabled(y.sessions[id], e)
    ensures MayBecome(c, y.sessions[id], Step(c, y.sessions[id], e)) && !Held(y, id)
  {
    SpawnedOnce(y.sessions[id], e);
    hide Inv, Held, Ended, Step, Enabled;
    StepInv(c, y.sessions[id], e);
    StepFollows(c, y.sessions[id], e);
  }

  /** A new session has nothing outstanding, so nothing happens in it. */
  lemma {:induction false} SpawnedOnce(s: SessionState, e: Event)
    requires Enabled(s, e) && Own(e)
    ensures s != NewSession()
  {
  }

  lemma {:induction false} RequestStopInv(c: ServerConfig, y: System, failure: bool)
    requires Can(y, RequestStop(failure)) && SystemInv(c, y)
    ensures SystemInv(c, Act(c, y, RequestStop(failure)))
  {
    hide Inv, Ended, Untouched, Distinct, SessionOk;
    PostedDistinct(y.tasks, StopCall);
    var z := Act(c, y, RequestStop(failure));
    assert forall t :: t in z.tasks <==> t in y.tasks || t == StopCall;
    assert TasksOk(z) && Named(z) && AcceptsOk(z);
    forall k | 0 <= k < |z.sessions|
      ensures SessionOk(c, z, k)
    {
      PostSameFor(y.(failed := y.failed || failure), StopCall, k);
      SameSessionOk(c, y, z, k);
    }
  }

  lemma {:induction false} StartServerInv(c: ServerConfig, y: System)
    requires Can(y, StartServer) && SystemInv(c, y)
    ensures SystemInv(c, Act(c, y, StartServer))
  {
    hide Inv, Ended, Untouched, Distinct, SessionOk, AcceptConnections;
    var u := y.(started := true);
    var z := Post(u, Signal(Underway));
    PostedDistinct(u.tasks, Signal(Underway));
    assert z.tasks == [Signal(Underway)];
    assert TasksOk(z) && Named(z) && NoneAccepting(z);
    AcceptNext(c, z);
  }

  lemma {:induction false} ActInv(c: ServerConfig, y: System, a: Action)
    requires Can(y, a) && SystemInv(c, y)
    ensures SystemInv(c, Act(c, y, a))
  {
    hide SystemInv, Act;
    match a
    case StartServer => StartServerInv(c, y);
    case CompleteTask(i, accepted) => CompleteTaskInv(c, y, i, accepted);
    case RunTask(i, inline) => RunTaskInv(c, y, i, inline);
    case EndNext(id, inline) => EndNextInv(c, y, id, inline);
    case RequestStop(failure) => RequestStopInv(c, y, failure);
    case InSession(id, e) => InSessionInv(c, y, id, e);
  }

  lemma {:induction false} NewSystemInv(c: ServerConfig)
    ensures SystemInv(c, NewSystem())
  {
  }

  /** The invariant holds throughout every run of the program. */
  lemma {:induction false} ReachedInv(c: ServerConfig, y: System, actions: seq<Action>)
    requires SystemInv(c, y) && Feasible(c, y, actions)
    ensures SystemInv(c, Reached(c, y, actions))
    decreases |actions|
  {
    if actions != [] {
      hide SystemInv;
      ActInv(c, y, actions[0]);
      ReachedInv(c, Act(c, y, actions[0]), actions[1..]);
    }
  }
}
